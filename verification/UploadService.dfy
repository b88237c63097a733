/**
 * UploadService: the request handlers and maintenance over the repository and the chunk storage. Every method
 * returns, as a ghost list, the durable steps it took for its upload, so a crash inside it is a prefix of that list.
 */
module UploadService {
  import opened Common
  import opened Sums
  import opened Grid
  import opened UploadRows
  import opened UploadTables
  import opened ChunkFiles
  import opened ChunkStorage
  import opened Publication
  import opened PublicationSafety

  datatype ServiceError =
    | Rejected(error: UploadError)
    | BadUploadPart
    | Integrity
    | InputOutput
    | NoSpace
    | TooLarge
    | TypeNotAllowed
    | NotStored(cause: WriteError)

  /**
   * Which file operations of this call succeed. Without `canRead` no assembled copy can be opened, not even to find it
   * missing; reading parts while assembling is not meant, a failure there is the step Abort. The removals of one call
   * succeed together or not at all; a sweep that stops half-way is the step Sweep with what it kept.
   */
  datatype Io = Io(canRead: bool, canRename: bool, canRemove: bool)

  /** How far the first locked section of complete got. */
  datatype Begun = Finished | Planned(plan: map<int, Part>)

  /** The lower-case hexadecimal form that put_part demands of a chunk digest. */
  predicate IsSha256Text(sha: Digest) {
    |sha| == 64 && forall k :: 0 <= k < |sha| ==> IsDigit(sha[k]) || 'a' <= sha[k] <= 'f'
  }

  /** The checks of put_part on a request: the digest form, the source device, the range, and begin_part. */
  function Screen(s: Session, index: int, contentRange: string, sha: Digest, deviceId: Id): Result<Option<Part>, ServiceError> {
    if !IsSha256Text(sha) then Err(BadUploadPart)
    else if s.meta.deviceId != deviceId then Err(Rejected(StateConflict))
    else
      match ParseContentRange(contentRange, s.meta.size, index, s.meta.chunk)
      case Err(_) => Err(BadUploadPart)
      case Ok(range) =>
        var part := Part(range.start, range.end, range.size, sha);
        match BeginPart(s, index, part)
        case Err(error) => Err(Rejected(error))
        case Ok(Replay) => Ok(None)
        case Ok(Lease) => Ok(Some(part))
  }

  /** What passes is a slot of the grid: leased when it is new, and the confirmed row itself when it is replayed. */
  lemma ScreenedIsLease(s: Session, index: int, contentRange: string, sha: Digest, deviceId: Id)
    ensures var result := Screen(s, index, contentRange, sha, deviceId);
            && (result.Ok? ==> s.meta.deviceId == deviceId)
            && (result.Ok? && result.value.Some? ==>
                  && OnSlot(result.value.value, s.meta.size, s.meta.chunk, index) && result.value.value.sha == sha
                  && BeginPart(s, index, result.value.value) == Ok(Lease) && index !in s.parts)
            && (result == Ok(None) ==>
                  index in s.parts && s.parts[index].sha == sha && OnSlot(s.parts[index], s.meta.size, s.meta.chunk, index))
  {
    if ParseContentRange(contentRange, s.meta.size, index, s.meta.chunk).Ok? {
      AcceptedRangeIsTheSlot(contentRange, s.meta.size, index, s.meta.chunk, sha);
    }
  }

  /** The part row of a slot with this digest. */
  function SlotPart(s: Session, index: int, sha: Digest): Part {
    var start := index * s.meta.chunk;
    var end := Min(s.meta.size, start + s.meta.chunk) - 1;
    Part(start, end, end - start + 1, sha)
  }

  /**
   * How put_part answers before any byte is read, in terms of the request and the row alone: refused, a replay of the
   * confirmed part, or let through with the part of its slot.
   */
  ghost predicate Answers(s: Session, index: int, contentRange: string, sha: Digest, deviceId: Id,
                          answer: Result<Option<Part>, ServiceError>) {
    if !IsSha256Text(sha) then answer == Err(BadUploadPart)
    else if s.meta.deviceId != deviceId then answer == Err(Rejected(StateConflict))
    else if !NamesSlot(contentRange, s.meta.size, index, s.meta.chunk) then answer == Err(BadUploadPart)
    else if index in s.parts then
      answer == if s.parts[index] == SlotPart(s, index, sha) then Ok(None) else Err(Rejected(Conflict))
    else
      answer == if s.status in {Queued, Uploading} then Ok(Some(SlotPart(s, index, sha))) else Err(Rejected(StateConflict))
  }

  /** That is the answer of the checks in the order of the code. */
  lemma ScreenedExactly(s: Session, index: int, contentRange: string, sha: Digest, deviceId: Id)
    ensures Answers(s, index, contentRange, sha, deviceId, Screen(s, index, contentRange, sha, deviceId))
  {
    AcceptedExactly(contentRange, s.meta.size, index, s.meta.chunk);
    if ParseContentRange(contentRange, s.meta.size, index, s.meta.chunk).Ok? {
      SlotIsBegun(s, index, sha);
    }
  }

  lemma SlotIsBegun(s: Session, index: int, sha: Digest)
    requires s.meta.chunk > 0 && 0 <= index && index * s.meta.chunk < s.meta.size
    ensures BeginPart(s, index, SlotPart(s, index, sha))
         == if index in s.parts then
              if s.parts[index] == SlotPart(s, index, sha) then Ok(Replay) else Err(Conflict)
            else if s.status in {Queued, Uploading} then Ok(Lease) else Err(StateConflict)
    ensures SlotPart(s, index, sha)
         == Part(index * s.meta.chunk, SlotEnd(s.meta.size, s.meta.chunk, index), SlotSize(s.meta.size, s.meta.chunk, index), sha)
  {
    SlotIsInside(s.meta.size, s.meta.chunk, index);
  }

  /** A client that puts what it has not yet confirmed is let through whenever the upload is queued or uploading. */
  lemma MissingPartIsLetThrough(s: Session, index: int, sha: Digest)
    requires s.meta.chunk > 0 && 0 <= index < PartCount(s.meta.size, s.meta.chunk) && index !in s.parts
    requires s.status in {Queued, Uploading} && IsSha256Text(sha)
    ensures var (start, endExclusive) := ClientSlice(s.meta.size, s.meta.chunk, index);
            && 0 <= start < endExclusive
            && Answers(s, index, ContentRange(start, endExclusive - 1, s.meta.size), sha, s.meta.deviceId,
                       Ok(Some(SlotPart(s, index, sha))))
  {
    ClientSliceNamesSlot(s.meta.size, s.meta.chunk, index);
  }

  lemma OneMore<V>(m: map<nat, V>, w: nat, v: V)
    requires w !in m
    ensures |m[w := v]| == |m| + 1
  {
    assert m[w := v].Keys == m.Keys + {w};
  }

  lemma OneLess<V>(m: map<nat, V>, w: nat)
    requires w in m
    ensures |m - {w}| == |m| - 1
  {
    assert (m - {w}).Keys == m.Keys - {w};
  }

  lemma StoredTrail(u: Upload, w: nat, whole: Bytes, v: Upload) returns (trail: seq<Upload>)
    requires w in u.writers && !u.writers[w].linked && u.writers[w].received == []
    requires Matches(whole, u.writers[w].part)
    requires u.writers[w].index in u.files.parts ==> Stored(u.files, u.writers[w].index, u.writers[w].part)
    requires var writer := u.writers[w];
             v == u.(writers := u.writers[w := writer.(received := [], linked := true)],
                     files := if writer.index in u.files.parts then u.files
                              else u.files.(parts := u.files.parts[writer.index := whole]))
    ensures Leads(trail, u, v)
  {
    var received := u.(writers := u.writers[w := u.writers[w].(received := whole)]);
    assert [] + whole == whole;
    Took(u, Put(Receive(w, whole)), received);
    trail := Grow([u], received);
    assert v.writers == received.writers[w := received.writers[w].(received := [], linked := true)];
    Took(received, Put(Link(w)), v);
    trail := Grow(trail, v);
  }

  /** The state after copying the first k stored parts. */
  ghost function Copied(u: Upload, k: nat): Upload
    requires u.phase.Copying?
    requires forall j :: 0 <= j < k ==> j in u.files.parts
  {
    var whole := Concat(u.files.parts, k);
    u.(files := u.files.(temp := Some(whole)), phase := Copying(u.phase.plan, k, whole))
  }

  lemma {:induction false} CopyTrail(u: Upload, k: nat) returns (trail: seq<Upload>)
    requires u.phase.Copying? && u.phase.next == 0 && u.phase.copied == []
    requires u.files.temp == Some([])
    requires k <= |u.phase.plan|
    requires AllStored(u.files, u.phase.plan, k)
    ensures Leads(trail, u, Copied(u, k))
  {
    if k == 0 {
      trail := [u];
    } else {
      trail := CopyTrail(u, k - 1);
      Took(Copied(u, k - 1), Completion(CopyPart), Copied(u, k));
      trail := Grow(trail, Copied(u, k));
    }
  }

  predicate JustCompleted(s: Session, t: Session) {
    t.status == Complete && s.status != Complete
  }

  function MessagesAfter(messages: map<Id, Message>, s: Session, t: Session, id: Id, messageId: Id): map<Id, Message> {
    if JustCompleted(s, t) then messages[messageId := Message(Some(id), t.meta.requestId)] else messages
  }

  function FilesAfter(files: map<Id, FileRow>, s: Session, t: Session, id: Id): map<Id, FileRow> {
    if JustCompleted(s, t) && t.fileSha.Some? then files[id := FileRow(t.meta.size, t.fileSha.value)] else files
  }

  class UploadService {
    const repository: UploadRepository
    const chunks: ChunkStorage
    var writers: map<Id, nat>
    var completing: set<Id>
    ghost var inFlight: map<Id, map<nat, Writer>>
    ghost var phases: map<Id, Phase>
    ghost var pasts: map<Id, History>

    constructor (repository: UploadRepository, chunks: ChunkStorage)
      requires chunks.bufferSize > 0
      ensures this.repository == repository && this.chunks == chunks && Valid()
    {
      this.repository := repository;
      this.chunks := chunks;
      writers, completing, inFlight, phases, pasts := map[], {}, map[], map[], map[];
    }

    function WriterCount(id: Id): nat
      reads this`writers
    {
      if id in writers then writers[id] else 0
    }

    ghost function InFlight(id: Id): map<nat, Writer>
      reads this`inFlight
    {
      if id in inFlight then inFlight[id] else map[]
    }

    ghost function PhaseOf(id: Id): Phase
      reads this`phases
    {
      if id in phases then phases[id] else Idle
    }

    ghost function PastOf(id: Id): History
      reads this`pasts
    {
      if id in pasts then pasts[id] else History([], false, false, false, false)
    }

    /** `_writers` counts the requests in flight and `_completing` names the uploads with a complete request. */
    ghost predicate Valid()
      reads this`writers, this`inFlight, this`completing, this`phases
    {
      && chunks.bufferSize > 0
      && (forall id :: WriterCount(id) == |InFlight(id)|)
      && (forall id :: id in completing <==> !PhaseOf(id).Idle?)
    }

    ghost function View(id: Id): Upload
      requires id in repository.sessions
      reads this`inFlight, this`phases, this`pasts, repository`sessions, chunks
    {
      Upload(repository.sessions[id], chunks.FilesOf(id), InFlight(id), PhaseOf(id), PastOf(id))
    }

    /** The tables after a call are those before it, plus the message and the file row if the call completed the upload. */
    twostate predicate Recorded(id: Id, messageId: Id)
      requires old(id in repository.sessions)
      requires id in repository.sessions
      reads this, repository
    {
      && repository.messages == MessagesAfter(old(repository.messages), old(repository.sessions[id]), repository.sessions[id], id, messageId)
      && repository.files == FilesAfter(old(repository.files), old(repository.sessions[id]), repository.sessions[id], id)
      && (JustCompleted(old(repository.sessions[id]), repository.sessions[id]) ==> repository.sessions[id].messageId == Some(messageId))
    }

    /** All other uploads. */
    ghost function Others(id: Id): map<Id, Upload>
      reads this`inFlight, this`phases, this`pasts, repository`sessions, chunks
    {
      map other | other in repository.sessions && other != id :: View(other)
    }

    /** Nothing of any other upload is touched. */
    twostate predicate Alone(id: Id)
      reads this, repository, chunks
    {
      && repository.sessions.Keys == old(repository.sessions.Keys)
      && repository.reservations == old(repository.reservations)
      && Others(id) == old(Others(id))
    }

    twostate lemma Untouched(id: Id)
      requires repository.sessions.Keys == old(repository.sessions.Keys)
      requires forall other :: other in repository.sessions && other != id ==> View(other) == old(View(other))
      ensures Others(id) == old(Others(id))
    {
    }

    /** One durable step of this upload, from its old state to its new one. */
    twostate predicate Did(id: Id)
      requires old(id in repository.sessions)
      reads this, repository, chunks
    {
      Valid() && Alone(id) && id in repository.sessions && Next(old(View(id)), View(id))
    }

    ghost predicate Known(id: Id)
      reads this`writers, this`inFlight, this`completing, this`phases, repository`sessions
    {
      Valid() && id in repository.sessions
    }

    method DropTempFile(id: Id)
      requires Known(id) && CanMaintain(View(id), DropTemp)
      modifies chunks
      ensures Did(id)
      ensures var u := old(View(id)); View(id) == u.(files := u.files.(temp := None))
    {
      ghost var u := View(id);
      chunks.DiscardAssembled(id);
      Untouched(id);
      Took(u, Maintenance(DropTemp), View(id));
    }

    method ResetRow(id: Id)
      requires Known(id) && CanMaintain(View(id), Reset)
      modifies repository`sessions
      ensures Did(id)
      ensures var u := old(View(id)); View(id) == u.(row := ResetAssembling(u.row))
    {
      ghost var u := View(id);
      repository.Store(id, Ok(ResetAssembling(repository.sessions[id])));
      Untouched(id);
      Took(u, Maintenance(Reset), View(id));
    }

    method RenameFile(id: Id)
      requires Known(id) && CanMaintain(View(id), Rename)
      modifies chunks, this`phases
      ensures Did(id)
      ensures var u := old(View(id));
              View(id) == u.(files := u.files.(final := u.files.temp, temp := None),
                             phase := if u.phase.Publishing? then Renamed(u.phase.pending) else u.phase)
    {
      ghost var u := View(id);
      var done := chunks.Publish(id, true);
      if PhaseOf(id).Publishing? {
        phases := phases[id := Renamed(PhaseOf(id).pending)];
      }
      Untouched(id);
      Took(u, Maintenance(Rename), View(id));
    }

    method MarkFilePublished(id: Id, sha: Digest, now: int, ttl: int) returns (outcome: Result<Session, UploadError>)
      requires Known(id)
      requires PublishedCopy(View(id)).Some? && sha == PublishedCopy(View(id)).value.sha
      modifies repository`sessions
      ensures outcome == SetPublication(old(View(id)).row, FilePublished, Some(sha), now, ttl)
      ensures outcome.Ok? ==> Did(id) && View(id) == old(View(id)).(row := outcome.value)
      ensures outcome.Err? ==> repository.sessions == old(repository.sessions)
    {
      ghost var u := View(id);
      outcome := SetPublication(repository.sessions[id], FilePublished, Some(sha), now, ttl);
      repository.Store(id, outcome);
      if outcome.Ok? {
        Untouched(id);
        Took(u, Maintenance(MarkPublished(now, ttl)), View(id));
      }
    }

    /** Nothing is written when the row or the unique constraints refuse. */
    method FinalizeStep(id: Id, pending: Pending, messageId: Id) returns (outcome: Result<Session, UploadError>)
      requires Known(id) && messageId !in repository.messages
      requires repository.sessions[id].status != Complete
      requires PublishedCopy(View(id)) == Some(pending)
      modifies repository`sessions, repository`messages, repository`files
      ensures var u := old(View(id));
              outcome == if Finalize(u.row, pending, messageId).Err?
                            || old(Insertable(repository.messages, repository.files, id, u.row.meta.requestId, messageId))
                         then Finalize(u.row, pending, messageId) else Err(IntegrityViolation)
      ensures outcome.Ok? ==> Did(id) && View(id) == old(View(id)).(row := outcome.value)
      ensures outcome.Err? ==> repository.sessions == old(repository.sessions)
      ensures Recorded(id, messageId)
    {
      ghost var u := View(id);
      outcome := repository.FinalizeRow(id, pending, messageId);
      if outcome.Ok? {
        Untouched(id);
        Took(u, Maintenance(FinalizeUpload(messageId)), View(id));
      }
    }

    method SweepDirectory(id: Id)
      requires Known(id) && CanControl(View(id), Sweep({}, false))
      modifies chunks
      ensures Did(id)
      ensures var u := old(View(id)); View(id) == u.(files := Files(map[], None, u.files.final))
    {
      ghost var u := View(id);
      chunks.CleanupSession(id);
      assert View(id).files == AfterControl(u, Sweep({}, false)).files;
      Untouched(id);
      Took(u, Control(Sweep({}, false)), View(id));
    }

    method RemoveFinal(id: Id)
      requires Known(id) && CanControl(View(id), DropFinal)
      modifies chunks
      ensures Did(id)
      ensures var u := old(View(id)); View(id) == u.(files := u.files.(final := None))
    {
      ghost var u := View(id);
      chunks.DiscardFinal(id, true);
      Untouched(id);
      Took(u, Control(DropFinal), View(id));
    }

    method ReconcileParts(id: Id, missing: set<int>, now: int, ttl: int)
      requires Known(id) && CanMaintain(View(id), Reconcile(now, ttl)) && missing == Missing(View(id))
      modifies repository`sessions
      ensures Did(id)
      ensures var u := old(View(id)); View(id) == u.(row := ReconcileMissing(u.row, missing, now, ttl))
    {
      ghost var u := View(id);
      repository.ReconcileRow(id, missing, now, ttl);
      Untouched(id);
      Took(u, Maintenance(Reconcile(now, ttl)), View(id));
    }

    method FailRow(id: Id, reset: bool, now: int, ttl: int)
      requires Known(id) && CanMaintain(View(id), FailPublication(reset, now, ttl))
      modifies repository`sessions, this`pasts
      ensures Did(id)
      ensures var u := old(View(id));
              View(id) == u.(row := Fail(u.row, "publication_error", reset, now, ttl).value,
                             past := u.past.(faulted := u.past.faulted || !reset))
    {
      ghost var u := View(id);
      pasts := pasts[id := PastOf(id).(faulted := PastOf(id).faulted || !reset)];
      repository.Store(id, Fail(repository.sessions[id], "publication_error", reset, now, ttl));
      Untouched(id);
      Took(u, Maintenance(FailPublication(reset, now, ttl)), View(id));
    }

    method ExpireRow(id: Id, now: int)
      requires Known(id) && CanMaintain(View(id), Expire(now, true))
      modifies repository`sessions
      ensures Did(id)
      ensures var u := old(View(id)); View(id) == u.(row := ExpireOne(u.row, now, true).value)
    {
      ghost var u := View(id);
      repository.Store(id, Ok(ExpireOne(repository.sessions[id], now, true).value));
      Untouched(id);
      Took(u, Maintenance(Expire(now, true)), View(id));
    }

    method CancelRow(id: Id, now: int, ttl: int)
      requires Known(id) && CanControl(View(id), CancelUpload(now, ttl))
      modifies repository`sessions
      ensures Did(id)
      ensures var u := old(View(id)); View(id) == u.(row := Cancel(u.row, now, ttl).value)
    {
      ghost var u := View(id);
      repository.Store(id, Cancel(repository.sessions[id], now, ttl));
      Untouched(id);
      Took(u, Control(CancelUpload(now, ttl)), View(id));
    }

    // ---- create and control ----

    /**
     * A request id that already has its session is answered from it, whatever the limits say by now; a new one is
     * checked against the size limit, the measured space and the admission rules, and then starts as a valid upload.
     */
    method CreateUpload(meta: Meta, freeBytes: Option<int>, reserve: int, maxSize: int, typeAllowed: bool, maxActive: int,
                        newId: Id, now: int, ttl: int, ghost source: Bytes)
      returns (result: Result<Id, ServiceError>)
      requires Valid() && newId !in repository.sessions && newId !in chunks.disk && newId !in inFlight && newId !in completing
      modifies repository, this`pasts
      ensures Valid() && repository.messages == old(repository.messages) && repository.files == old(repository.files)
      ensures forall id :: id in old(repository.sessions) ==> id in repository.sessions && View(id) == old(View(id))
      ensures SessionFor(old(repository.sessions), meta.requestId) ==>
                && repository.sessions == old(repository.sessions)
                && (result.Ok? ==> result.value in repository.sessions && repository.sessions[result.value].meta == meta)
                && (result.Err? ==> result == Err(Rejected(Conflict)))
      ensures !SessionFor(old(repository.sessions), meta.requestId) ==>
                && (result.Err? ==> repository.sessions == old(repository.sessions))
                && (result.Ok? ==>
                      && result.value == newId && newId in repository.sessions
                      && (meta.size > 0 && meta.chunk > 0 && |source| == meta.size ==> Initial(View(newId)))
                      && View(newId) == Upload(Session(meta, Queued, Unpublished, 0, None, None, None, now + ttl, map[]), NoFiles, map[], Idle,
                                               History(source, false, false, false, false))
                      && forall t :: Expirable(View(newId), t) <==> now + ttl <= t)
      ensures !SessionFor(old(repository.sessions), meta.requestId) ==>
                if meta.size > maxSize then result == Err(TooLarge)
                else if freeBytes.None? then result == Err(InputOutput)
                else if !typeAllowed then result == Err(TypeNotAllowed)
                else
                  var admission := old(Admission(repository.sessions, repository.messages, repository.reservations,
                                                 Creation(meta, maxActive, Some(freeBytes.value - reserve))));
                  if admission.Err? then result == Err(Rejected(admission.error)) else result == Ok(newId)
    {
      var existing := repository.FindSession(meta.requestId);
      if existing.Some? {
        return if repository.sessions[existing.value].meta != meta then Err(Rejected(Conflict)) else Ok(existing.value);
      }
      if meta.size > maxSize {
        return Err(TooLarge);
      }
      if freeBytes.None? {
        return Err(InputOutput);
      }
      if !typeAllowed {
        return Err(TypeNotAllowed);
      }
      var created := repository.CreateOrGet(Creation(meta, maxActive, Some(freeBytes.value - reserve)), newId, now, ttl);
      if created.Err? {
        return Err(Rejected(created.error));
      }
      pasts := pasts[newId := History(source, false, false, false, false)];
      assert repository.sessions[newId] == NewSession(meta, now, ttl);
      result := Ok(newId);
    }

    /** pause and resume */
    method ControlUpload(id: Id, action: Action, deviceId: Id, now: int, ttl: int) returns (result: Result<(), ServiceError>)
      requires Known(id)
      modifies repository`sessions
      ensures var s := old(repository.sessions[id]);
              result == (if s.meta.deviceId != deviceId then Err(Rejected(Conflict))
                         else if s.status in (if action.Pause? then {Queued, Uploading} else {Failed, Paused}) then Ok(())
                         else Err(Rejected(StateConflict)))
      ensures result.Ok? ==>
                && Did(id)
                && View(id) == old(View(id)).(row := old(View(id)).row.(
                     status := if action.Pause? then Paused else Uploading, error := None, expiresAt := now + ttl))
      ensures result.Err? ==> repository.sessions == old(repository.sessions)
    {
      ghost var u := View(id);
      var outcome := Transition(repository.sessions[id], action, deviceId, now, ttl);
      repository.Store(id, outcome);
      if outcome.Err? {
        return Err(Rejected(outcome.error));
      }
      Untouched(id);
      Took(u, Control(Switch(action, deviceId, now, ttl)), View(id));
      result := Ok(());
    }

    // ---- put_part ----

    /** The first locked section: a replayed part is answered at once, a new one is leased and counted. */
    method BeginPut(id: Id, ghost w: nat, index: int, contentRange: string, sha: Digest, deviceId: Id)
      returns (result: Result<Option<Part>, ServiceError>)
      requires Known(id) && w !in InFlight(id)
      modifies this`writers, this`inFlight, this`pasts
      ensures Valid() && Alone(id)
      ensures Answers(repository.sessions[id], index, contentRange, sha, deviceId, result)
      ensures result.Ok? && result.value.Some? ==>
                && Next(old(View(id)), View(id))
                && View(id) == old(View(id)).(writers := old(View(id)).writers[w := Writer(index, result.value.value, [], false)],
                                              past := View(id).past)
      ensures result.Err? || result.value.None? ==> View(id) == old(View(id))
    {
      result := Screen(repository.sessions[id], index, contentRange, sha, deviceId);
      ScreenedExactly(repository.sessions[id], index, contentRange, sha, deviceId);
      if result.Ok? && result.value.Some? {
        ScreenedIsLease(repository.sessions[id], index, contentRange, sha, deviceId);
        AddWriter(id, w, index, result.value.value);
      }
    }

    method CountWriters(id: Id, count: nat, ghost rest: map<nat, Writer>)
      requires Valid() && count == |rest|
      modifies this`writers, this`inFlight
      ensures Valid() && writers == old(writers)[id := count] && inFlight == old(inFlight)[id := rest]
    {
      writers := writers[id := count];
      inFlight := inFlight[id := rest];
      forall other
        ensures WriterCount(other) == |InFlight(other)|
      {
        if other != id {
          assert WriterCount(other) == old(WriterCount(other)) && InFlight(other) == old(InFlight(other));
        }
      }
    }

    method AddWriter(id: Id, ghost w: nat, index: int, part: Part)
      requires Known(id) && CanPut(View(id), Admit(w, index, part))
      modifies this`writers, this`inFlight, this`pasts
      ensures Did(id)
      ensures var u := old(View(id));
              View(id) == u.(writers := u.writers[w := Writer(index, part, [], false)], past := View(id).past)
    {
      ghost var u := View(id);
      OneMore(InFlight(id), w, Writer(index, part, [], false));
      CountWriters(id, WriterCount(id) + 1, InFlight(id)[w := Writer(index, part, [], false)]);
      pasts := pasts[id := PastAfterAdmit(u, index, part)];
      Untouched(id);
      Took(u, Put(Admit(w, index, part)), View(id));
    }

    method RemoveWriter(id: Id, ghost w: nat)
      requires Known(id) && w in InFlight(id)
      modifies this`writers, this`inFlight
      ensures Did(id)
      ensures var u := old(View(id)); View(id) == u.(writers := u.writers - {w})
    {
      ghost var u := View(id);
      OneLess(InFlight(id), w);
      CountWriters(id, WriterCount(id) - 1, InFlight(id) - {w});
      Untouched(id);
      Took(u, Put(Leave(w)), View(id));
    }

    /** write_part, outside the lock: the verified body becomes the part file, or the request fails. */
    method StorePart(id: Id, ghost w: nat, index: int, part: Part, body: seq<Bytes>)
      returns (outcome: Result<Pending, WriteError>, ghost trail: seq<Upload>)
      requires Known(id) && w in InFlight(id) && InFlight(id)[w] == Writer(index, part, [], false) && part.size >= 0
      modifies chunks, this`inFlight
      ensures Valid() && Alone(id) && repository.sessions == old(repository.sessions)
      ensures Leads(trail, old(View(id)), View(id))
      ensures var u, v := old(View(id)), View(id);
              && (outcome.Ok? <==> Storable(u, index, part, body))
              && (outcome.Err? ==> v == u)
              && (outcome.Ok? ==>
                    && Stored(v.files, index, part)
                    && v == u.(files := StoredFiles(u.files, index, Joined(body)), writers := u.writers[w := Writer(index, part, [], true)]))
    {
      ghost var u := View(id);
      trail := [u];
      outcome := LinkPart(id, w, index, part, body);
      if outcome.Ok? {
        trail := StoredTrail(u, w, Joined(body), View(id));
      }
    }

    /** write_part, and the writer's own note that its file is in place. */
    method LinkPart(id: Id, ghost w: nat, index: int, part: Part, body: seq<Bytes>) returns (outcome: Result<Pending, WriteError>)
      requires Known(id) && w in InFlight(id) && part.size >= 0
      modifies chunks, this`inFlight
      ensures Valid() && Alone(id) && repository.sessions == old(repository.sessions)
      ensures var u, v := old(View(id)), View(id);
              && (outcome.Ok? <==> Storable(u, index, part, body))
              && v == if outcome.Err? then u
                      else u.(files := StoredFiles(u.files, index, Joined(body)), writers := u.writers[w := Writer(index, part, [], true)])
    {
      outcome := chunks.WritePart(id, index, body, part.size, part.sha);
      if outcome.Ok? {
        inFlight := inFlight[id := InFlight(id)[w := Writer(index, part, [], true)]];
      }
      Untouched(id);
    }

    /** The second locked section: confirm the stored part, or drop it when the upload is cancelled or expired. */
    method ConfirmPut(id: Id, ghost w: nat, index: int, part: Part, now: int, ttl: int)
      returns (result: Result<(), ServiceError>, ghost trail: seq<Upload>)
      requires Known(id) && w in InFlight(id) && InFlight(id)[w] == Writer(index, part, [], true)
      modifies repository`sessions, chunks
      ensures Valid() && Alone(id) && id in repository.sessions
      ensures Leads(trail, old(View(id)), View(id))
      ensures var u, v := old(View(id)), View(id);
              var outcome := ConfirmPart(u.row, index, part, now, ttl);
              if u.row.status in {Cancelled, Expired} then
                result == Err(Rejected(StateConflict)) && v == u.(files := u.files.(parts := u.files.parts - {index}))
              else if outcome.Err? then result == Err(Rejected(outcome.error)) && v == u
              else result == Ok(()) && v == u.(row := outcome.value)
    {
      ghost var u := View(id);
      trail := [u];
      if repository.sessions[id].status in {Cancelled, Expired} {
        chunks.DiscardPart(id, index);
        Untouched(id);
        Took(u, Put(DiscardLate(w)), View(id));
        trail := Grow(trail, View(id));
        return Err(Rejected(StateConflict)), trail;
      }
      var outcome := repository.ConfirmRow(id, index, part, now, ttl);
      if outcome.Err? {
        return Err(Rejected(outcome.error)), trail;
      }
      Untouched(id);
      Took(u, Put(Confirm(w, now, ttl)), View(id));
      trail := Grow(trail, View(id));
      result := Ok(());
    }

    /** The last locked section: the writer is no longer counted, and the last one out sweeps a cancelled upload. */
    method FinishPut(id: Id, ghost w: nat, io: Io) returns (ghost trail: seq<Upload>)
      requires Known(id) && w in InFlight(id)
      modifies chunks, this`writers, this`inFlight
      ensures Valid() && Alone(id) && repository.sessions == old(repository.sessions)
      ensures Leads(trail, old(View(id)), View(id))
      ensures var u, v := old(View(id)), View(id);
              && v.row == u.row && v.phase == u.phase && v.past == u.past && v.writers == u.writers - {w}
              && v.files == (if u.row.status == Cancelled && v.writers == map[] && io.canRemove
                             then Files(map[], None, u.files.final) else u.files)
    {
      trail := [View(id)];
      RemoveWriter(id, w);
      trail := Grow(trail, View(id));
      if WriterCount(id) == 0 && repository.sessions[id].status == Cancelled && io.canRemove {
        SweepDirectory(id);
        trail := Grow(trail, View(id));
      }
    }

    /** What follows the lease: the body is stored and confirmed, or refused; either way the writer leaves. */
    method PutLeased(id: Id, ghost w: nat, index: int, part: Part, body: seq<Bytes>, now: int, ttl: int, io: Io)
      returns (result: Result<(), ServiceError>, ghost trail: seq<Upload>)
      requires Known(id) && w in InFlight(id) && InFlight(id)[w] == Writer(index, part, [], false) && part.size >= 0
      requires repository.sessions[id].status in {Queued, Uploading}
      requires ConfirmPart(repository.sessions[id], index, part, now, ttl).Ok?
      modifies repository`sessions, chunks, this`writers, this`inFlight
      ensures Valid() && Alone(id) && id in repository.sessions
      ensures Leads(trail, old(View(id)), View(id))
      ensures LeasedFrom(old(View(id)), View(id), w, index, part, body, now, ttl, result)
    {
      var outcome;
      outcome, trail := StorePart(id, w, index, part, body);
      ghost var first := trail;
      if outcome.Err? {
        result := Err(NotStored(outcome.error));
        trail := FinishPut(id, w, io);
      } else {
        result := Ok(());
        trail := ConfirmStored(id, w, index, part, now, ttl, io);
      }
      trail := Join(first, trail);
    }

    method ConfirmStored(id: Id, ghost w: nat, index: int, part: Part, now: int, ttl: int, io: Io) returns (ghost trail: seq<Upload>)
      requires Known(id) && w in InFlight(id) && InFlight(id)[w] == Writer(index, part, [], true)
      requires repository.sessions[id].status in {Queued, Uploading}
      requires ConfirmPart(repository.sessions[id], index, part, now, ttl).Ok?
      modifies repository`sessions, chunks, this`writers, this`inFlight
      ensures Valid() && Alone(id) && id in repository.sessions
      ensures Leads(trail, old(View(id)), View(id))
      ensures var u := old(View(id));
              View(id) == u.(row := ConfirmPart(u.row, index, part, now, ttl).value, writers := u.writers - {w})
    {
      var confirmed;
      confirmed, trail := ConfirmPut(id, w, index, part, now, ttl);
      ghost var first := trail;
      trail := FinishPut(id, w, io);
      trail := Join(first, trail);
    }

    /** One put_part with nothing in between. */
    method PutPart(id: Id, ghost w: nat, index: int, contentRange: string, sha: Digest, deviceId: Id, body: seq<Bytes>,
                   now: int, ttl: int, io: Io)
      returns (result: Result<(), ServiceError>, ghost trail: seq<Upload>)
      requires Known(id) && w !in InFlight(id)
      modifies repository`sessions, chunks, this`writers, this`inFlight, this`pasts
      ensures Valid() && Alone(id) && id in repository.sessions
      ensures Leads(trail, old(View(id)), View(id))
      ensures PutFrom(old(View(id)), View(id), index, contentRange, sha, deviceId, body, now, ttl, result)
    {
      ghost var u := View(id);
      trail := [u];
      var leased := BeginPut(id, w, index, contentRange, sha, deviceId);
      if leased.Err? {
        return Err(leased.error), trail;
      }
      if leased.value.None? {
        return Ok(()), trail;
      }
      trail := Grow(trail, View(id));
      ghost var first := trail;
      SlotIsLeased(u.row, index, contentRange, sha, deviceId);
      LeaseConfirms(u.row, index, leased.value.value, now, ttl);
      ghost var m := View(id);
      result, trail := PutLeased(id, w, index, leased.value.value, body, now, ttl, io);
      trail := Join(first, trail);
      PutOutcome(u, m, View(id), w, index, contentRange, sha, deviceId, body, now, ttl, result);
    }

    // ---- Publication ----

    /** An interrupted assembly is discarded and starts again. */
    method RestartAssembly(id: Id) returns (ghost trail: seq<Upload>)
      requires Known(id) && Quiet(View(id))
      requires View(id).row.status == Verifying && View(id).row.publication == Assembling
      modifies repository`sessions, chunks
      ensures Valid() && Alone(id) && id in repository.sessions
      ensures Leads(trail, old(View(id)), View(id))
      ensures var u := old(View(id));
              View(id) == u.(row := ResetAssembling(u.row), files := u.files.(temp := None))
    {
      trail := [View(id)];
      DropTempFile(id);
      trail := Grow(trail, View(id));
      ResetRow(id);
      trail := Grow(trail, View(id));
    }

    /** Finds the verified copy at the final path, or brings it there from the temporary path. */
    method SecureFinal(id: Id, io: Io) returns (result: Result<Pending, ServiceError>, ghost trail: seq<Upload>)
      requires Known(id) && Quiet(View(id))
      requires !Terminal(View(id).row.status) && View(id).row.publication == Assembled
      modifies chunks, this`phases
      ensures Valid() && Alone(id) && repository.sessions == old(repository.sessions)
      ensures Leads(trail, old(View(id)), View(id))
      ensures SecuredFrom(old(View(id)), View(id), io, result)
    {
      trail := [View(id)];
      var session := repository.sessions[id];
      if !io.canRead {
        return Err(InputOutput), trail;
      }
      result := Err(Integrity);
      var pending := chunks.PendingFromSession(id, session, true);
      if pending.Ok? {
        return Ok(pending.value), trail;
      }
      pending := chunks.PendingFromSession(id, session, false);
      if pending.Err? {
        return;
      }
      if !io.canRename {
        return Err(InputOutput), trail;
      }
      RenameFile(id);
      trail := Grow(trail, View(id));
      result := Ok(pending.value);
    }

    /** The assembled branch: secure the verified copy at the final path, then record file_published. */
    method PublishAssembled(id: Id, now: int, ttl: int, io: Io) returns (result: Result<(), ServiceError>, ghost trail: seq<Upload>)
      requires Known(id) && Quiet(View(id))
      requires !Terminal(View(id).row.status) && View(id).row.publication == Assembled
      modifies repository`sessions, chunks, this`phases
      ensures Valid() && Alone(id) && id in repository.sessions
      ensures Leads(trail, old(View(id)), View(id))
      ensures PublishedFrom(old(View(id)), View(id), now, ttl, io, result)
      ensures repository.sessions[id].status == old(repository.sessions[id]).status
    {
      var pending: Result<Pending, ServiceError>;
      pending, trail := SecureFinal(id, io);
      if pending.Err? {
        return Err(pending.error), trail;
      }
      var outcome := MarkFilePublished(id, pending.value.sha, now, ttl);
      if outcome.Err? {
        return Err(Rejected(outcome.error)), trail;
      }
      trail := Grow(trail, View(id));
      result := Ok(());
    }

    /** finalize_publication, and the sweep of the directory once it has committed. */
    method FinalizeAndSweep(id: Id, pending: Pending, messageId: Id, io: Io) returns (result: Result<(), ServiceError>, ghost trail: seq<Upload>)
      requires Known(id) && messageId !in repository.messages
      requires !Terminal(repository.sessions[id].status) && PublishedCopy(View(id)) == Some(pending)
      requires repository.sessions[id].publication == FilePublished
      requires repository.sessions[id].fileSha == Some(pending.sha) && repository.sessions[id].meta.size == pending.size
      modifies repository`sessions, repository`messages, repository`files, chunks
      ensures Valid() && Alone(id) && id in repository.sessions
      ensures Leads(trail, old(View(id)), View(id))
      ensures var u, v := old(View(id)), View(id);
              var insertable := old(Insertable(repository.messages, repository.files, id, repository.sessions[id].meta.requestId, messageId));
              && result == (if u.row.status != Verifying then Err(Rejected(StateConflict))
                            else if insertable then Ok(()) else Err(Rejected(IntegrityViolation)))
              && (result.Ok? ==> FinalizedFrom(u, v, io) && v.row.messageId == Some(messageId))
              && (result.Err? ==> v == u)
      ensures Recorded(id, messageId)
    {
      trail := [View(id)];
      var outcome := FinalizeStep(id, pending, messageId);
      if outcome.Err? {
        return Err(Rejected(outcome.error)), trail;
      }
      trail := Grow(trail, View(id));
      if io.canRemove {
        SweepDirectory(id);
        trail := Grow(trail, View(id));
      }
      result := Ok(());
    }

    /** The file_published branch: re-read the final file, insert file and message, complete the row, sweep the directory. */
    method FinishPublication(id: Id, messageId: Id, io: Io) returns (result: Result<(), ServiceError>, ghost trail: seq<Upload>)
      requires Known(id) && Quiet(View(id)) && messageId !in repository.messages
      requires !Terminal(View(id).row.status) && View(id).row.publication == FilePublished
      modifies repository`sessions, repository`messages, repository`files, chunks
      ensures Valid() && Alone(id) && id in repository.sessions
      ensures Leads(trail, old(View(id)), View(id))
      ensures FinishedFrom(old(View(id)), View(id), io,
                           old(Insertable(repository.messages, repository.files, id, repository.sessions[id].meta.requestId, messageId)),
                           result)
      ensures Recorded(id, messageId)
    {
      if !io.canRead {
        return Err(InputOutput), [View(id)];
      }
      var pending := chunks.PendingFromSession(id, repository.sessions[id], true);
      if pending.Err? {
        return Err(Integrity), [View(id)];
      }
      result, trail := FinalizeAndSweep(id, pending.value, messageId, io);
    }

    /** From an assembled or file_published upload to its message. */
    method DrivePublication(id: Id, now: int, ttl: int, messageId: Id, io: Io)
      returns (result: Result<(), ServiceError>, ghost trail: seq<Upload>)
      requires Known(id) && Quiet(View(id)) && messageId !in repository.messages
      requires !Terminal(View(id).row.status) && View(id).row.publication in {Assembled, FilePublished}
      modifies repository`sessions, repository`messages, repository`files, chunks, this`phases
      ensures Valid() && Alone(id) && id in repository.sessions
      ensures Leads(trail, old(View(id)), View(id))
      ensures DrivenFrom(old(View(id)), View(id), now, ttl, io,
                         old(Insertable(repository.messages, repository.files, id, repository.sessions[id].meta.requestId, messageId)),
                         result)
      ensures Recorded(id, messageId)
    {
      if repository.sessions[id].publication == FilePublished {
        result, trail := FinishPublication(id, messageId, io);
      } else {
        result, trail := DriveAssembled(id, now, ttl, messageId, io);
      }
    }

    /** The assembled branch, and on success the file_published one. */
    method DriveAssembled(id: Id, now: int, ttl: int, messageId: Id, io: Io)
      returns (result: Result<(), ServiceError>, ghost trail: seq<Upload>)
      requires Known(id) && Quiet(View(id)) && messageId !in repository.messages
      requires !Terminal(View(id).row.status) && View(id).row.publication == Assembled
      modifies repository`sessions, repository`messages, repository`files, chunks, this`phases
      ensures Valid() && Alone(id) && id in repository.sessions
      ensures Leads(trail, old(View(id)), View(id))
      ensures DrivenFrom(old(View(id)), View(id), now, ttl, io,
                         old(Insertable(repository.messages, repository.files, id, repository.sessions[id].meta.requestId, messageId)),
                         result)
      ensures Recorded(id, messageId)
    {
      ghost var u := View(id);
      result, trail := PublishAssembled(id, now, ttl, io);
      assert !JustCompleted(u.row, View(id).row);
      if result.Ok? {
        ghost var first := trail;
        result, trail := FinishMarked(id, u, now, ttl, messageId, io);
        trail := Join(first, trail);
      }
    }

    /** The second branch right after the first. */
    method FinishMarked(id: Id, ghost u: Upload, now: int, ttl: int, messageId: Id, io: Io)
      returns (result: Result<(), ServiceError>, ghost trail: seq<Upload>)
      requires Known(id) && Quiet(View(id)) && messageId !in repository.messages
      requires u.row.publication == Assembled && PublishedFrom(u, View(id), now, ttl, io, Ok(()))
      modifies repository`sessions, repository`messages, repository`files, chunks
      ensures Valid() && Alone(id) && id in repository.sessions
      ensures Leads(trail, old(View(id)), View(id))
      ensures DrivenFrom(u, View(id), now, ttl, io,
                         old(Insertable(repository.messages, repository.files, id, repository.sessions[id].meta.requestId, messageId)),
                         result)
      ensures Recorded(id, messageId)
    {
      ghost var m := View(id);
      ghost var insertable := Insertable(repository.messages, repository.files, id, repository.sessions[id].meta.requestId, messageId);
      result, trail := FinishPublication(id, messageId, io);
      DrivenOn(u, m, View(id), now, ttl, io, insertable, result);
    }

    /** _continue_publication_locked, for an upload that is not terminal. */
    method ContinuePublication(id: Id, now: int, ttl: int, messageId: Id, io: Io)
      returns (result: Result<(), ServiceError>, ghost trail: seq<Upload>)
      requires Known(id) && Quiet(View(id)) && messageId !in repository.messages
      requires !Terminal(View(id).row.status) && View(id).row.publication in {Assembling, Assembled, FilePublished}
      requires View(id).row.publication == Assembling ==> View(id).row.status == Verifying
      modifies repository`sessions, repository`messages, repository`files, chunks, this`phases
      ensures Valid() && Alone(id) && id in repository.sessions
      ensures Leads(trail, old(View(id)), View(id))
      ensures ContinuedFrom(old(View(id)), View(id), now, ttl, io,
                            old(Insertable(repository.messages, repository.files, id, repository.sessions[id].meta.requestId, messageId)),
                            result)
      ensures Recorded(id, messageId)
    {
      if repository.sessions[id].publication == Assembling {
        trail := RestartAssembly(id);
        result := Ok(());
      } else {
        result, trail := DrivePublication(id, now, ttl, messageId, io);
      }
    }

    // ---- Recovery, expiry, cancellation ----

    /** What reconcile_session reports: confirmed parts without their file. */
    method FindMissing(id: Id) returns (missing: set<int>)
      requires Known(id)
      ensures missing == Missing(View(id))
    {
      var session, files := repository.sessions[id], chunks.FilesOf(id);
      missing := set i | i in session.parts && i !in files.parts;
    }

    /** The publication of a recovered upload: driven on, or failed when its copy is lost or unreachable. */
    method RecoverPublication(id: Id, now: int, ttl: int, messageId: Id, io: Io)
      returns (result: Result<(), ServiceError>, ghost trail: seq<Upload>)
      requires Known(id) && Quiet(View(id)) && View(id).writers == map[] && messageId !in repository.messages
      requires !Terminal(View(id).row.status) && View(id).row.publication in {Assembled, FilePublished}
      modifies repository`sessions, repository`messages, repository`files, chunks, this`phases, this`pasts
      ensures Valid() && Alone(id) && id in repository.sessions
      ensures Leads(trail, old(View(id)), View(id))
      ensures RepublishedFrom(old(View(id)), View(id), now, ttl, io,
                              old(Insertable(repository.messages, repository.files, id, repository.sessions[id].meta.requestId, messageId)),
                              result)
      ensures Recorded(id, messageId)
    {
      ghost var u := View(id);
      ghost var insertable := Insertable(repository.messages, repository.files, id, repository.sessions[id].meta.requestId, messageId);
      var driven;
      driven, trail := DrivePublication(id, now, ttl, messageId, io);
      ghost var m := View(id);
      ghost var first := trail;
      FailureIsRecordable(u, m, now, ttl, io, insertable, driven);
      result, trail := SettleDriven(id, driven, now, ttl);
      trail := Join(first, trail);
      Republished(u, m, View(id), now, ttl, io, insertable, driven, result);
    }

    /** The except clauses of _recover_locked: a lost copy resets the publication, any other failure keeps it. */
    method SettleDriven(id: Id, driven: Result<(), ServiceError>, now: int, ttl: int)
      returns (result: Result<(), ServiceError>, ghost trail: seq<Upload>)
      requires Known(id)
      requires driven.Err? && driven.error != Rejected(IntegrityViolation) ==>
                 CanMaintain(View(id), FailPublication(driven.error == Integrity, now, ttl))
      modifies repository`sessions, this`pasts
      ensures Valid() && Alone(id) && id in repository.sessions
      ensures Leads(trail, old(View(id)), View(id))
      ensures DriveSettled(old(View(id)), View(id), now, ttl, driven, result)
      ensures old(repository.sessions[id]).status != Complete ==> repository.sessions[id].status != Complete
    {
      trail := [View(id)];
      result := driven;
      if driven.Err? && driven.error != Rejected(IntegrityViolation) {
        FailRow(id, driven.error == Integrity, now, ttl);
        trail := Grow(trail, View(id));
        result := Ok(());
      }
    }

    /** The branches of _recover_locked once the missing parts are reconciled. */
    method RecoverSettled(id: Id, now: int, ttl: int, messageId: Id, io: Io)
      returns (result: Result<(), ServiceError>, ghost trail: seq<Upload>)
      requires Known(id) && messageId !in repository.messages && StatusFits(repository.sessions[id])
      requires View(id).phase.Idle? && View(id).writers == map[]
      modifies repository`sessions, repository`messages, repository`files, chunks, this`phases, this`pasts
      ensures Valid() && Alone(id) && id in repository.sessions
      ensures Leads(trail, old(View(id)), View(id))
      ensures SettledFrom(old(View(id)), View(id), now, ttl, io,
                          old(Insertable(repository.messages, repository.files, id, repository.sessions[id].meta.requestId, messageId)),
                          result)
      ensures Recorded(id, messageId)
    {
      var session := repository.sessions[id];
      result := Ok(());
      if Terminal(session.status) {
        trail := CleanTerminal(id, io);
      } else if session.publication == Assembling {
        trail := RestartAssembly(id);
      } else if session.publication in {Assembled, FilePublished} {
        result, trail := RecoverPublication(id, now, ttl, messageId, io);
      } else {
        trail := [View(id)];
      }
    }

    method ReconcileStorage(id: Id, now: int, ttl: int) returns (ghost trail: seq<Upload>)
      requires Known(id) && View(id).phase.Idle? && View(id).writers == map[] && StatusFits(repository.sessions[id])
      modifies repository`sessions
      ensures Valid() && Alone(id) && id in repository.sessions
      ensures Leads(trail, old(View(id)), View(id))
      ensures View(id) == Reconciled(old(View(id)), now, ttl)
      ensures StatusFits(repository.sessions[id])
    {
      trail := [View(id)];
      var missing := FindMissing(id);
      if missing != {} {
        ReconcileParts(id, missing, now, ttl);
        trail := Grow(trail, View(id));
      }
    }

    /** _recover_locked: nothing while requests are in flight; otherwise the upload leaves verifying. */
    method RecoverLocked(id: Id, now: int, ttl: int, messageId: Id, io: Io)
      returns (result: Result<(), ServiceError>, ghost trail: seq<Upload>)
      requires Known(id) && messageId !in repository.messages && StatusFits(repository.sessions[id])
      modifies repository`sessions, repository`messages, repository`files, chunks, this`phases, this`pasts
      ensures Valid() && Alone(id) && id in repository.sessions
      ensures Leads(trail, old(View(id)), View(id))
      ensures RecoveredFrom(old(View(id)), View(id), now, ttl, io,
                            old(Insertable(repository.messages, repository.files, id, repository.sessions[id].meta.requestId, messageId)),
                            result)
      ensures Recorded(id, messageId)
    {
      trail := [View(id)];
      if id in completing || WriterCount(id) > 0 {
        return Ok(()), trail;
      }
      result, trail := RecoverQuiet(id, now, ttl, messageId, io);
    }

    method RecoverQuiet(id: Id, now: int, ttl: int, messageId: Id, io: Io)
      returns (result: Result<(), ServiceError>, ghost trail: seq<Upload>)
      requires Known(id) && messageId !in repository.messages && StatusFits(repository.sessions[id])
      requires View(id).phase.Idle? && View(id).writers == map[]
      modifies repository`sessions, repository`messages, repository`files, chunks, this`phases, this`pasts
      ensures Valid() && Alone(id) && id in repository.sessions
      ensures Leads(trail, old(View(id)), View(id))
      ensures SettledFrom(Reconciled(old(View(id)), now, ttl), View(id), now, ttl, io,
                          old(Insertable(repository.messages, repository.files, id, repository.sessions[id].meta.requestId, messageId)),
                          result)
      ensures Recorded(id, messageId)
    {
      trail := ReconcileStorage(id, now, ttl);
      ghost var first := trail;
      result, trail := RecoverSettled(id, now, ttl, messageId, io);
      trail := Join(first, trail);
    }

    /** The leftovers of a terminal upload: its unpublished final file and its directory. */
    method CleanTerminal(id: Id, io: Io) returns (ghost trail: seq<Upload>)
      requires Known(id) && Terminal(View(id).row.status) && View(id).writers == map[]
      requires View(id).row.status == Complete ==> View(id).row.publication == Published
      modifies chunks
      ensures Valid() && Alone(id) && id in repository.sessions
      ensures Leads(trail, old(View(id)), View(id))
      ensures CleanedFrom(old(View(id)), View(id), io)
    {
      trail := [View(id)];
      if !io.canRemove {
        return;
      }
      if repository.sessions[id].publication in {Assembled, FilePublished} {
        RemoveFinal(id);
        trail := Grow(trail, View(id));
      }
      SweepDirectory(id);
      trail := Grow(trail, View(id));
    }

    method ExpireSettled(id: Id, now: int, io: Io) returns (ghost trail: seq<Upload>)
      requires Known(id) && Quiet(View(id)) && View(id).writers == map[] && Active(View(id).row.status)
      modifies repository`sessions, chunks
      ensures Valid() && Alone(id) && id in repository.sessions
      ensures Leads(trail, old(View(id)), View(id))
      ensures ExpiredSwept(old(View(id)), View(id), io)
    {
      trail := [View(id)];
      ExpireRow(id, now);
      trail := Grow(trail, View(id));
      if io.canRemove {
        SweepDirectory(id);
        trail := Grow(trail, View(id));
      }
    }

    /** A due verifying upload is recovered first, and expires unless that completes it. */
    method ExpireVerifying(id: Id, now: int, ttl: int, messageId: Id, io: Io)
      returns (result: Result<bool, ServiceError>, ghost trail: seq<Upload>)
      requires Known(id) && messageId !in repository.messages && StatusFits(repository.sessions[id])
      requires View(id).row.status == Verifying && View(id).phase.Idle? && View(id).writers == map[]
      modifies repository`sessions, repository`messages, repository`files, chunks, this`phases, this`pasts
      ensures Valid() && Alone(id) && id in repository.sessions
      ensures Leads(trail, old(View(id)), View(id))
      ensures ExpiredAfterRecovery(old(View(id)), View(id), now, ttl, io,
                                   old(Insertable(repository.messages, repository.files, id, repository.sessions[id].meta.requestId, messageId)),
                                   result)
      ensures Recorded(id, messageId)
    {
      var recovered;
      recovered, trail := RecoverActive(id, now, ttl, messageId, io);
      if recovered.Err? {
        return Err(recovered.error), trail;
      }
      if repository.sessions[id].status == Complete {
        return Ok(false), trail;
      }
      ghost var first := trail;
      trail := ExpireSettled(id, now, io);
      trail := Join(first, trail);
      result := Ok(true);
    }

    /** recover for a verifying upload without requests: what succeeds is completed, or active without any new record. */
    method RecoverActive(id: Id, now: int, ttl: int, messageId: Id, io: Io)
      returns (result: Result<(), ServiceError>, ghost trail: seq<Upload>)
      requires Known(id) && messageId !in repository.messages && StatusFits(repository.sessions[id])
      requires View(id).row.status == Verifying && View(id).phase.Idle? && View(id).writers == map[]
      modifies repository`sessions, repository`messages, repository`files, chunks, this`phases, this`pasts
      ensures Valid() && Alone(id) && id in repository.sessions
      ensures Leads(trail, old(View(id)), View(id))
      ensures RecoveredFrom(old(View(id)), View(id), now, ttl, io,
                            old(Insertable(repository.messages, repository.files, id, repository.sessions[id].meta.requestId, messageId)),
                            result)
      ensures Recorded(id, messageId)
      ensures result.Ok? ==>
                View(id).row.status in {Complete, Uploading, Failed} && View(id).phase.Idle? && View(id).writers == map[]
      ensures repository.sessions[id].status != Complete ==>
                repository.messages == old(repository.messages) && repository.files == old(repository.files)
    {
      ghost var u := View(id);
      ghost var insertable := Insertable(repository.messages, repository.files, id, repository.sessions[id].meta.requestId, messageId);
      result, trail := RecoverLocked(id, now, ttl, messageId, io);
      if result.Ok? {
        ActiveAfterRecovery(u, View(id), now, ttl, io, insertable);
      }
    }

    /** _expire_locked: nothing unless the upload is due, active, and has no request in flight. */
    method ExpireLocked(id: Id, now: int, ttl: int, messageId: Id, io: Io)
      returns (result: Result<bool, ServiceError>, ghost trail: seq<Upload>)
      requires Known(id) && messageId !in repository.messages && StatusFits(repository.sessions[id])
      modifies repository`sessions, repository`messages, repository`files, chunks, this`phases, this`pasts
      ensures Valid() && Alone(id) && id in repository.sessions
      ensures Leads(trail, old(View(id)), View(id))
      ensures ExpiredFrom(old(View(id)), View(id), now, ttl, io,
                          old(Insertable(repository.messages, repository.files, id, repository.sessions[id].meta.requestId, messageId)),
                          result)
      ensures Recorded(id, messageId)
    {
      var session := repository.sessions[id];
      if id in completing || !Active(session.status) || session.expiresAt > now || WriterCount(id) > 0 {
        return Ok(false), [View(id)];
      }
      if session.status == Verifying {
        result, trail := ExpireVerifying(id, now, ttl, messageId, io);
      } else {
        trail := ExpireSettled(id, now, io);
        result := Ok(true);
      }
    }

    /** cancel: the row first, then the unpublished final file, then the directory unless a writer is in flight. */
    method CancelLocked(id: Id, now: int, ttl: int, io: Io) returns (result: Result<(), ServiceError>, ghost trail: seq<Upload>)
      requires Known(id)
      modifies repository`sessions, chunks
      ensures Valid() && Alone(id) && id in repository.sessions
      ensures Leads(trail, old(View(id)), View(id))
      ensures CancelledFrom(old(View(id)), View(id), now, ttl, io, result)
    {
      trail := [View(id)];
      var outcome := Cancel(repository.sessions[id], now, ttl);
      if outcome.Err? {
        return Err(Rejected(outcome.error)), trail;
      }
      CancelRow(id, now, ttl);
      trail := Grow(trail, View(id));
      if io.canRemove && repository.sessions[id].publication in {Assembled, FilePublished} {
        RemoveFinal(id);
        trail := Grow(trail, View(id));
      }
      if io.canRemove && WriterCount(id) == 0 {
        SweepDirectory(id);
        trail := Grow(trail, View(id));
      }
      result := Ok(());
    }

    // ---- Completion ----

    method EnterCompletion(id: Id)
      requires Known(id) && id !in completing
      modifies this`completing, this`phases
      ensures Did(id) && View(id) == old(View(id)).(phase := Waiting)
    {
      ghost var u := View(id);
      completing := completing + {id};
      phases := phases[id := Waiting];
      Untouched(id);
      Took(u, Completion(Await), View(id));
    }

    method LeaveCompletion(id: Id)
      requires Known(id) && !PhaseOf(id).Opening? && !PhaseOf(id).Copying?
      modifies this`completing, this`phases
      ensures Did(id) && View(id) == old(View(id)).(phase := Idle)
    {
      ghost var u := View(id);
      completing := completing - {id};
      phases := phases[id := Idle];
      Untouched(id);
      Took(u, Completion(Exit), View(id));
    }

    method StartRow(id: Id, now: int, ttl: int) returns (outcome: Result<Session, UploadError>)
      requires Known(id) && PhaseOf(id).Waiting?
      requires repository.sessions[id].meta.size > 0
      requires forall i :: i in repository.sessions[id].parts ==>
                 repository.sessions[id].parts[i].start >= 0 && repository.sessions[id].parts[i].end >= repository.sessions[id].parts[i].start
      modifies repository`sessions, this`phases
      ensures outcome == BeginCompletion(old(View(id)).row, now, ttl)
      ensures outcome.Ok? ==> Did(id)
      ensures outcome.Ok? ==> var u := old(View(id)); View(id) == u.(row := outcome.value, phase := Opening(u.row.parts))
      ensures outcome.Err? ==> repository.sessions == old(repository.sessions) && phases == old(phases)
    {
      ghost var u := View(id);
      outcome := repository.BeginCompletionRow(id, now, ttl);
      if outcome.Ok? {
        phases := phases[id := Opening(u.row.parts)];
        Untouched(id);
        Took(u, Completion(Start(now, ttl)), View(id));
      }
    }

    /** assemble, outside the lock: a whole verified copy, or nothing and the reason. */
    method AssembleParts(id: Id, parts: map<int, Part>) returns (result: Result<Pending, ServiceError>, bad: int, ghost trail: seq<Upload>)
      requires Known(id) && PhaseOf(id) == Opening(parts) && Assemblable(View(id), parts)
      modifies chunks, this`phases, this`completing
      ensures Valid() && Alone(id) && repository.sessions == old(repository.sessions)
      ensures Leads(trail, old(View(id)), View(id))
      ensures AssembledFrom(old(View(id)), View(id), parts, result, bad)
    {
      ghost var u := View(id);
      PlanIsStructured(u, parts);
      var outcome := chunks.Assemble(id, repository.sessions[id].meta.size, parts);
      EnterPhase(id, PhaseAfter(outcome));
      Untouched(id);
      trail := AssemblyTrail(u, parts, outcome, View(id));
      result, bad := Reported(outcome), BadIndex(outcome);
    }

    method EnterPhase(id: Id, phase: Phase)
      requires Valid() && id in completing
      modifies this`phases, this`completing
      ensures Valid() && phases == old(phases)[id := phase]
    {
      phases := phases[id := phase];
      if phase.Idle? {
        completing := completing - {id};
      }
    }

    /** The handling of an integrity error: drop the bad part file, then its row. */
    method InvalidateBroken(id: Id, index: int, code: string, now: int, ttl: int) returns (ghost trail: seq<Upload>)
      requires Known(id) && PhaseOf(id) == Broken(index)
      modifies repository`sessions, chunks, this`phases, this`completing
      ensures Valid() && Alone(id) && id in repository.sessions
      ensures Leads(trail, old(View(id)), View(id))
      ensures var u := old(View(id));
              var outcome := InvalidatePart(u.row, index, code, now, ttl);
              View(id) == u.(files := u.files.(parts := u.files.parts - {index}), phase := Idle,
                             row := if outcome.Ok? then outcome.value else u.row)
    {
      trail := [View(id)];
      DropBrokenPart(id, index);
      trail := Grow(trail, View(id));
      EndBroken(id, index, code, now, ttl);
      trail := Grow(trail, View(id));
    }

    method DropBrokenPart(id: Id, index: int)
      requires Known(id) && PhaseOf(id) == Broken(index)
      modifies chunks
      ensures Did(id)
      ensures var u := old(View(id)); View(id) == u.(files := u.files.(parts := u.files.parts - {index}))
    {
      ghost var u := View(id);
      chunks.DiscardPart(id, index);
      Untouched(id);
      Took(u, Completion(DropBroken), View(id));
    }

    /** invalidate_part for the bad part; the request ends whether or not the row was still open. */
    method EndBroken(id: Id, index: int, code: string, now: int, ttl: int)
      requires Known(id) && PhaseOf(id) == Broken(index)
      modifies repository`sessions, this`phases, this`completing
      ensures Did(id)
      ensures var u := old(View(id));
              var outcome := InvalidatePart(u.row, index, code, now, ttl);
              View(id) == u.(row := if outcome.Ok? then outcome.value else u.row, phase := Idle)
    {
      ghost var u := View(id);
      var outcome := repository.InvalidateRow(id, index, code, now, ttl);
      completing := completing - {id};
      phases := phases[id := Idle];
      Untouched(id);
      Took(u, Completion(if outcome.Ok? then Invalidate(code, now, ttl) else Exit), View(id));
    }

    method MarkAssembledRow(id: Id, pending: Pending, now: int, ttl: int)
      requires Known(id) && PhaseOf(id) == Ready(pending)
      requires repository.sessions[id].status == Verifying && repository.sessions[id].publication == Assembling
      modifies repository`sessions, this`phases
      ensures Did(id)
      ensures var u := old(View(id));
              View(id) == u.(row := u.row.(publication := Assembled, fileSha := Some(pending.sha), expiresAt := now + ttl),
                             phase := Publishing(pending))
    {
      ghost var u := View(id);
      repository.Store(id, SetPublication(repository.sessions[id], Assembled, Some(pending.sha), now, ttl));
      phases := phases[id := Publishing(pending)];
      Untouched(id);
      Took(u, Completion(MarkAssembled(now, ttl)), View(id));
    }

    method DropAssembledFile(id: Id)
      requires Known(id) && PhaseOf(id).Ready?
      requires !(repository.sessions[id].status == Verifying && repository.sessions[id].publication == Assembling)
      modifies chunks, this`phases, this`completing
      ensures Did(id)
      ensures var u := old(View(id)); View(id) == u.(files := u.files.(temp := None), phase := Idle)
    {
      ghost var u := View(id);
      chunks.DiscardAssembled(id);
      completing := completing - {id};
      phases := phases[id := Idle];
      Untouched(id);
      Took(u, Completion(DropAssembled), View(id));
    }

    /** Records the assembled digest, renames the copy to its final path, records file_published. */
    method PublishReady(id: Id, pending: Pending, now: int, ttl: int, io: Io) returns (done: bool, ghost trail: seq<Upload>)
      requires Known(id) && PhaseOf(id) == Ready(pending)
      requires repository.sessions[id].status == Verifying && repository.sessions[id].publication == Assembling
      modifies repository`sessions, chunks, this`phases
      ensures Valid() && Alone(id) && id in repository.sessions
      ensures Leads(trail, old(View(id)), View(id))
      ensures var u, v := old(View(id)), View(id);
              && done == (io.canRename && u.files.temp.Some?)
              && v.row == u.row.(publication := if done then FilePublished else Assembled,
                                 fileSha := Some(pending.sha), expiresAt := now + ttl)
              && v.files == (if done then u.files.(final := u.files.temp, temp := None) else u.files)
              && v.phase == (if done then Renamed(pending) else Publishing(pending))
              && v.writers == u.writers && v.past == u.past
    {
      trail := [View(id)];
      MarkAssembledRow(id, pending, now, ttl);
      trail := Grow(trail, View(id));
      done := io.canRename && chunks.FilesOf(id).temp.Some?;
      if done {
        RenameFile(id);
        trail := Grow(trail, View(id));
        var outcome := MarkFilePublished(id, pending.sha, now, ttl);
        trail := Grow(trail, View(id));
      }
    }

    /** finalize_publication, the sweep, and the end of the request. */
    method FinishRenamed(id: Id, pending: Pending, messageId: Id, io: Io) returns (result: Result<(), ServiceError>, ghost trail: seq<Upload>)
      requires Known(id) && PhaseOf(id) == Renamed(pending) && messageId !in repository.messages
      requires repository.sessions[id].status == Verifying && repository.sessions[id].publication == FilePublished
      requires repository.sessions[id].fileSha == Some(pending.sha) && repository.sessions[id].meta.size == pending.size
      modifies repository`sessions, repository`messages, repository`files, chunks, this`phases, this`completing
      ensures Valid() && Alone(id) && id in repository.sessions
      ensures Leads(trail, old(View(id)), View(id))
      ensures var u, v := old(View(id)), View(id);
              var insertable := old(Insertable(repository.messages, repository.files, id, repository.sessions[id].meta.requestId, messageId));
              && result == (if insertable then Ok(()) else Err(Rejected(IntegrityViolation)))
              && (result.Ok? ==> FinalizedFrom(u.(phase := Idle), v, io))
              && (result.Err? ==> v == u.(phase := Idle))
      ensures Recorded(id, messageId)
    {
      result, trail := FinalizeAndSweep(id, pending, messageId, io);
      LeaveCompletion(id);
      trail := Grow(trail, View(id));
    }

    /** The last locked section of complete. */
    method FinishComplete(id: Id, pending: Pending, now: int, ttl: int, messageId: Id, io: Io)
      returns (result: Result<(), ServiceError>, ghost trail: seq<Upload>)
      requires Known(id) && PhaseOf(id) == Ready(pending) && messageId !in repository.messages
      requires repository.sessions[id].meta.size == pending.size
      modifies repository`sessions, repository`messages, repository`files, chunks, this`phases, this`completing
      ensures Valid() && Alone(id) && id in repository.sessions
      ensures Leads(trail, old(View(id)), View(id))
      ensures FinalFrom(old(View(id)), View(id), pending, now, ttl, io,
                        old(Insertable(repository.messages, repository.files, id, repository.sessions[id].meta.requestId, messageId)),
                        result)
      ensures Recorded(id, messageId)
    {
      var session := repository.sessions[id];
      if !(session.status == Verifying && session.publication == Assembling) {
        trail := [View(id)];
        DropAssembledFile(id);
        trail := Grow(trail, View(id));
        return Err(Rejected(StateConflict)), trail;
      }
      result, trail := FinishAssembling(id, pending, now, ttl, messageId, io);
    }

    /** The same for an upload that is still assembling: published and finalized, as far as input and output allow. */
    method FinishAssembling(id: Id, pending: Pending, now: int, ttl: int, messageId: Id, io: Io)
      returns (result: Result<(), ServiceError>, ghost trail: seq<Upload>)
      requires Known(id) && PhaseOf(id) == Ready(pending) && messageId !in repository.messages
      requires repository.sessions[id].meta.size == pending.size
      requires repository.sessions[id].status == Verifying && repository.sessions[id].publication == Assembling
      modifies repository`sessions, repository`messages, repository`files, chunks, this`phases, this`completing
      ensures Valid() && Alone(id) && id in repository.sessions
      ensures Leads(trail, old(View(id)), View(id))
      ensures FinalFrom(old(View(id)), View(id), pending, now, ttl, io,
                        old(Insertable(repository.messages, repository.files, id, repository.sessions[id].meta.requestId, messageId)),
                        result)
      ensures Recorded(id, messageId)
    {
      var done;
      done, trail := PublishReady(id, pending, now, ttl, io);
      ghost var first := trail;
      if done {
        result, trail := FinishRenamed(id, pending, messageId, io);
        trail := Join(first, trail);
      } else {
        result := Err(InputOutput);
        LeaveCompletion(id);
        trail := Grow(first, View(id));
      }
    }

    /** The capacity check and begin_completion, for an upload whose publication is not under way. */
    method BeginFresh(id: Id, now: int, ttl: int, freeBytes: int, reserve: int)
      returns (result: Result<Begun, ServiceError>, ghost trail: seq<Upload>)
      requires Known(id) && PhaseOf(id).Waiting? && ValidRow(repository.sessions[id])
      modifies repository`sessions, this`phases, this`completing
      ensures Valid() && Alone(id) && id in repository.sessions
      ensures Leads(trail, old(View(id)), View(id))
      ensures FreshFrom(old(View(id)), View(id), now, ttl, freeBytes, reserve, result)
      ensures !JustCompleted(old(repository.sessions[id]), repository.sessions[id])
    {
      trail := [View(id)];
      var session := repository.sessions[id];
      result := Err(NoSpace);
      if freeBytes >= session.meta.size + reserve {
        SlotsHaveBounds(session);
        var outcome := StartRow(id, now, ttl);
        if outcome.Ok? {
          trail := Grow(trail, View(id));
          return Ok(Planned(session.parts)), trail;
        }
        result := Err(Rejected(outcome.error));
      }
      LeaveCompletion(id);
      trail := Grow(trail, View(id));
    }

    /** The publication found under way by complete: finished, or its error handed on; either way the request ends. */
    method BeginDriven(id: Id, now: int, ttl: int, messageId: Id, io: Io)
      returns (result: Result<Begun, ServiceError>, ghost trail: seq<Upload>)
      requires Known(id) && PhaseOf(id).Waiting? && messageId !in repository.messages
      requires repository.sessions[id].status == Verifying && repository.sessions[id].publication in {Assembled, FilePublished}
      modifies repository`sessions, repository`messages, repository`files, chunks, this`phases, this`completing
      ensures Valid() && Alone(id) && id in repository.sessions
      ensures Leads(trail, old(View(id)), View(id))
      ensures View(id).phase == Idle
      ensures DrivenFrom(old(View(id)), View(id).(phase := Waiting), now, ttl, io,
                         old(Insertable(repository.messages, repository.files, id, repository.sessions[id].meta.requestId, messageId)),
                         if result.Ok? then Ok(()) else Err(result.error))
      ensures result.Ok? ==> result.value == Finished
      ensures Recorded(id, messageId)
    {
      var driven;
      driven, trail := DrivePublication(id, now, ttl, messageId, io);
      result := if driven.Ok? then Ok(Finished) else Err(driven.error);
      assert (if result.Ok? then Ok(()) else Err(result.error)) == driven;
      ghost var m := View(id);
      assert m.phase == Waiting;
      LeaveCompletion(id);
      assert View(id).(phase := Waiting) == m;
      trail := Grow(trail, View(id));
    }

    /** An interrupted assembly starts again under the same request. */
    method BeginAgain(id: Id, now: int, ttl: int, freeBytes: int, reserve: int)
      returns (result: Result<Begun, ServiceError>, ghost trail: seq<Upload>)
      requires Known(id) && PhaseOf(id).Waiting? && ValidRow(repository.sessions[id])
      requires repository.sessions[id].status == Verifying && repository.sessions[id].publication == Assembling
      modifies repository`sessions, chunks, this`phases, this`completing
      ensures Valid() && Alone(id) && id in repository.sessions
      ensures Leads(trail, old(View(id)), View(id))
      ensures FreshFrom(Restarted(old(View(id))), View(id), now, ttl, freeBytes, reserve, result)
      ensures !JustCompleted(old(repository.sessions[id]), repository.sessions[id])
    {
      ControlKeeps(repository.sessions[id], Pause, "", now, ttl);
      trail := RestartAssembly(id);
      ghost var first := trail;
      result, trail := BeginFresh(id, now, ttl, freeBytes, reserve);
      trail := Join(first, trail);
    }

    /** The first locked section of complete. */
    method BeginComplete(id: Id, deviceId: Id, now: int, ttl: int, freeBytes: int, reserve: int, messageId: Id, io: Io)
      returns (result: Result<Begun, ServiceError>, ghost trail: seq<Upload>)
      requires Known(id) && PhaseOf(id).Waiting? && ValidRow(repository.sessions[id]) && messageId !in repository.messages
      modifies repository`sessions, repository`messages, repository`files, chunks, this`phases, this`completing
      ensures Valid() && Alone(id) && id in repository.sessions
      ensures Leads(trail, old(View(id)), View(id))
      ensures BegunFrom(old(View(id)), View(id), deviceId, now, ttl, freeBytes, reserve, io,
                        old(Insertable(repository.messages, repository.files, id, repository.sessions[id].meta.requestId, messageId)),
                        result)
      ensures Recorded(id, messageId)
    {
      var session := repository.sessions[id];
      if session.meta.deviceId != deviceId || session.status == Complete {
        trail := [View(id)];
        LeaveCompletion(id);
        trail := Grow(trail, View(id));
        result := if session.meta.deviceId != deviceId then Err(Rejected(StateConflict)) else Ok(Finished);
      } else {
        result, trail := BeginLive(id, deviceId, now, ttl, freeBytes, reserve, messageId, io);
      }
    }

    /** The branches of the first section for the source device's own upload that has no message yet. */
    method BeginLive(id: Id, deviceId: Id, now: int, ttl: int, freeBytes: int, reserve: int, messageId: Id, io: Io)
      returns (result: Result<Begun, ServiceError>, ghost trail: seq<Upload>)
      requires Known(id) && PhaseOf(id).Waiting? && ValidRow(repository.sessions[id]) && messageId !in repository.messages
      requires repository.sessions[id].meta.deviceId == deviceId && repository.sessions[id].status != Complete
      modifies repository`sessions, repository`messages, repository`files, chunks, this`phases, this`completing
      ensures Valid() && Alone(id) && id in repository.sessions
      ensures Leads(trail, old(View(id)), View(id))
      ensures BegunFrom(old(View(id)), View(id), deviceId, now, ttl, freeBytes, reserve, io,
                        old(Insertable(repository.messages, repository.files, id, repository.sessions[id].meta.requestId, messageId)),
                        result)
      ensures Recorded(id, messageId)
    {
      if repository.sessions[id].status == Verifying {
        result, trail := BeginVerifying(id, deviceId, now, ttl, freeBytes, reserve, messageId, io);
      } else {
        result, trail := BeginFresh(id, now, ttl, freeBytes, reserve);
      }
    }

    /** A publication found under way starts again or is driven to its end. */
    method BeginVerifying(id: Id, deviceId: Id, now: int, ttl: int, freeBytes: int, reserve: int, messageId: Id, io: Io)
      returns (result: Result<Begun, ServiceError>, ghost trail: seq<Upload>)
      requires Known(id) && PhaseOf(id).Waiting? && ValidRow(repository.sessions[id]) && messageId !in repository.messages
      requires repository.sessions[id].meta.deviceId == deviceId && repository.sessions[id].status == Verifying
      modifies repository`sessions, repository`messages, repository`files, chunks, this`phases, this`completing
      ensures Valid() && Alone(id) && id in repository.sessions
      ensures Leads(trail, old(View(id)), View(id))
      ensures BegunFrom(old(View(id)), View(id), deviceId, now, ttl, freeBytes, reserve, io,
                        old(Insertable(repository.messages, repository.files, id, repository.sessions[id].meta.requestId, messageId)),
                        result)
      ensures Recorded(id, messageId)
    {
      if repository.sessions[id].publication == Assembling {
        result, trail := BeginAgain(id, now, ttl, freeBytes, reserve);
      } else {
        result, trail := BeginDriven(id, now, ttl, messageId, io);
      }
    }

    /** complete after its first section, with no other request in between: assemble, then publish or invalidate. */
    method CompletePlanned(id: Id, parts: map<int, Part>, now: int, ttl: int, messageId: Id, io: Io)
      returns (result: Result<(), ServiceError>, ghost trail: seq<Upload>)
      requires Known(id) && PhaseOf(id) == Opening(parts) && Assemblable(View(id), parts) && messageId !in repository.messages
      requires repository.sessions[id].status == Verifying && repository.sessions[id].publication == Assembling
      modifies repository`sessions, repository`messages, repository`files, chunks, this`phases, this`completing
      ensures Valid() && Alone(id) && id in repository.sessions
      ensures Leads(trail, old(View(id)), View(id))
      ensures PlannedFrom(old(View(id)), View(id), parts, now, ttl, io,
                          old(Insertable(repository.messages, repository.files, id, repository.sessions[id].meta.requestId, messageId)),
                          result)
      ensures Recorded(id, messageId)
    {
      var pending, bad;
      pending, bad, trail := AssembleParts(id, parts);
      if pending == Err(InputOutput) {
        return Err(InputOutput), trail;
      }
      ghost var first := trail;
      result, trail := CompleteAssembled(id, pending, bad, now, ttl, messageId, io);
      trail := Join(first, trail);
    }

    /** What follows assemble: the bad part is invalidated, or the copy is published. */
    method CompleteAssembled(id: Id, pending: Result<Pending, ServiceError>, bad: int, now: int, ttl: int, messageId: Id, io: Io)
      returns (result: Result<(), ServiceError>, ghost trail: seq<Upload>)
      requires Known(id) && messageId !in repository.messages
      requires pending.Ok? ==> PhaseOf(id) == Ready(pending.value) && repository.sessions[id].meta.size == pending.value.size
      requires pending.Err? ==> PhaseOf(id) == Broken(bad) && !Terminal(repository.sessions[id].status)
      modifies repository`sessions, repository`messages, repository`files, chunks, this`phases, this`completing
      ensures Valid() && Alone(id) && id in repository.sessions
      ensures Leads(trail, old(View(id)), View(id))
      ensures pending.Err? ==> result == Err(BadUploadPart) && View(id) == Invalidated(old(View(id)), bad, now, ttl)
      ensures pending.Ok? ==>
                FinalFrom(old(View(id)), View(id), pending.value, now, ttl, io,
                          old(Insertable(repository.messages, repository.files, id, repository.sessions[id].meta.requestId, messageId)),
                          result)
      ensures Recorded(id, messageId)
    {
      if pending.Err? {
        trail := InvalidateBroken(id, bad, if bad in chunks.FilesOf(id).parts then "integrity_error" else "missing_part", now, ttl);
        result := Err(BadUploadPart);
      } else {
        result, trail := FinishComplete(id, pending.value, now, ttl, messageId, io);
      }
    }

    method CompleteWaiting(id: Id, deviceId: Id, now: int, ttl: int, freeBytes: int, reserve: int, messageId: Id, io: Io)
      returns (result: Result<(), ServiceError>, ghost trail: seq<Upload>)
      requires Known(id) && PhaseOf(id).Waiting? && ValidRow(repository.sessions[id]) && messageId !in repository.messages
      modifies repository`sessions, repository`messages, repository`files, chunks, this`phases, this`completing
      ensures Valid() && Alone(id) && id in repository.sessions
      ensures Leads(trail, old(View(id)), View(id))
      ensures CompletedFrom(old(View(id)), View(id), deviceId, now, ttl, freeBytes, reserve, io,
                            old(Insertable(repository.messages, repository.files, id, repository.sessions[id].meta.requestId, messageId)),
                            result)
      ensures Recorded(id, messageId)
    {
      ghost var u := View(id);
      ghost var insertable := Insertable(repository.messages, repository.files, id, repository.sessions[id].meta.requestId, messageId);
      var begun;
      begun, trail := BeginOrEnd(id, deviceId, now, ttl, freeBytes, reserve, messageId, io);
      if begun.Err? || begun.value.Finished? {
        result := if begun.Ok? then Ok(()) else Err(begun.error);
        return;
      }
      ghost var m, first := View(id), trail;
      result, trail := CompletePlanned(id, begun.value.plan, now, ttl, messageId, io);
      trail := Join(first, trail);
      PlannedOutcome(u, m, View(id), deviceId, now, ttl, freeBytes, reserve, io, insertable, begun.value.plan, result);
    }

    /** The first section, seen from its end: the request is over, or a full upload is being assembled. */
    method BeginOrEnd(id: Id, deviceId: Id, now: int, ttl: int, freeBytes: int, reserve: int, messageId: Id, io: Io)
      returns (begun: Result<Begun, ServiceError>, ghost trail: seq<Upload>)
      requires Known(id) && PhaseOf(id).Waiting? && ValidRow(repository.sessions[id]) && messageId !in repository.messages
      modifies repository`sessions, repository`messages, repository`files, chunks, this`phases, this`completing
      ensures Valid() && Alone(id) && id in repository.sessions
      ensures Leads(trail, old(View(id)), View(id))
      ensures begun.Err? || begun.value.Finished? ==>
                CompletedFrom(old(View(id)), View(id), deviceId, now, ttl, freeBytes, reserve, io,
                              old(Insertable(repository.messages, repository.files, id, repository.sessions[id].meta.requestId, messageId)),
                              if begun.Ok? then Ok(()) else Err(begun.error))
      ensures Recorded(id, messageId)
      ensures begun.Ok? && begun.value.Planned? ==>
                && StartedFrom(old(View(id)), View(id), deviceId, now, ttl, freeBytes, reserve, begun.value.plan)
                && Assemblable(View(id), begun.value.plan)
                && repository.messages == old(repository.messages) && repository.files == old(repository.files)
    {
      ghost var u := View(id);
      ghost var insertable := Insertable(repository.messages, repository.files, id, repository.sessions[id].meta.requestId, messageId);
      begun, trail := BeginComplete(id, deviceId, now, ttl, freeBytes, reserve, messageId, io);
      BegunOutcome(u, View(id), deviceId, now, ttl, freeBytes, reserve, io, insertable, begun);
    }

    /** One complete request with nothing in between: it completes exactly the uploads that can be completed. */
    method CompleteUpload(id: Id, deviceId: Id, now: int, ttl: int, freeBytes: int, reserve: int, messageId: Id, io: Io)
      returns (result: Result<(), ServiceError>, ghost trail: seq<Upload>)
      requires Known(id) && ValidRow(repository.sessions[id]) && messageId !in repository.messages
      modifies repository`sessions, repository`messages, repository`files, chunks, this`phases, this`completing
      ensures Valid() && Alone(id) && id in repository.sessions
      ensures Leads(trail, old(View(id)), View(id))
      ensures id in old(completing) ==> result == Err(Rejected(StateConflict)) && View(id) == old(View(id))
      ensures id !in old(completing) ==>
                CompletedFrom(old(View(id)).(phase := Waiting), View(id), deviceId, now, ttl, freeBytes, reserve, io,
                              old(Insertable(repository.messages, repository.files, id, repository.sessions[id].meta.requestId, messageId)),
                              result)
      ensures Recorded(id, messageId)
    {
      trail := [View(id)];
      if id in completing {
        return Err(Rejected(StateConflict)), trail;
      }
      EnterCompletion(id);
      trail := Grow(trail, View(id));
      ghost var first := trail;
      result, trail := CompleteWaiting(id, deviceId, now, ttl, freeBytes, reserve, messageId, io);
      trail := Join(first, trail);
    }
  }

  /** The body is what the header announced, and no other content is stored under the index. */
  ghost predicate Storable(u: Upload, index: int, part: Part, body: seq<Bytes>) {
    Matches(Joined(body), part) && (index in u.files.parts ==> Stored(u.files, index, part))
  }

  function StoredFiles(files: Files, index: int, whole: Bytes): Files {
    if index in files.parts then files else files.(parts := files.parts[index := whole])
  }

  /** The bytes a lease grants can be confirmed as long as the upload stays open. */
  lemma LeaseConfirms(s: Session, index: int, part: Part, now: int, ttl: int)
    requires BeginPart(s, index, part) == Ok(Lease)
    ensures ConfirmPart(s, index, part, now, ttl).Ok? && s.status in {Queued, Uploading} && part.size >= 0
  {
  }

  ghost predicate LeasedFrom(u: Upload, v: Upload, w: nat, index: int, part: Part, body: seq<Bytes>, now: int, ttl: int,
                             result: Result<(), ServiceError>) {
    && (result.Ok? <==> Storable(u, index, part, body))
    && (result.Ok? ==>
          && ConfirmPart(u.row, index, part, now, ttl).Ok?
          && v == u.(row := ConfirmPart(u.row, index, part, now, ttl).value,
                     files := StoredFiles(u.files, index, Joined(body)), writers := u.writers - {w}))
    && (result.Err? ==> result.error.NotStored? && v == u.(writers := u.writers - {w}))
  }

  /** What is let through is a lease. */
  lemma SlotIsLeased(s: Session, index: int, contentRange: string, sha: Digest, deviceId: Id)
    requires Answers(s, index, contentRange, sha, deviceId, Ok(Some(SlotPart(s, index, sha))))
    ensures BeginPart(s, index, SlotPart(s, index, sha)) == Ok(Lease)
  {
    SlotIsInside(s.meta.size, s.meta.chunk, index);
  }

  /**
   * An uninterrupted put, in all its outcomes: a malformed digest or header, another device, a part that is confirmed
   * already, the same or different, and an upload that is not open leave everything as it was; otherwise the part is
   * accepted exactly when its body matches and no other content is there, and then it is stored and confirmed, and
   * nothing else of the upload has changed.
   */
  ghost predicate PutFrom(u: Upload, v: Upload, index: int, contentRange: string, sha: Digest, deviceId: Id, body: seq<Bytes>,
                          now: int, ttl: int, result: Result<(), ServiceError>) {
    if !IsSha256Text(sha) then result == Err(BadUploadPart) && v == u
    else if u.row.meta.deviceId != deviceId then result == Err(Rejected(StateConflict)) && v == u
    else if !NamesSlot(contentRange, u.row.meta.size, index, u.row.meta.chunk) then result == Err(BadUploadPart) && v == u
    else
      var part := SlotPart(u.row, index, sha);
      if index in u.row.parts then
        v == u && result == if u.row.parts[index] == part then Ok(()) else Err(Rejected(Conflict))
      else if u.row.status !in {Queued, Uploading} then result == Err(Rejected(StateConflict)) && v == u
      else
        && (result.Ok? <==> Storable(u, index, part, body))
        && (result.Ok? ==>
              && v.row == u.row.(parts := u.row.parts[index := part], status := Uploading,
                                 confirmed := PartBytes(u.row.parts[index := part]), expiresAt := now + ttl)
              && Stored(v.files, index, part)
              && v.files == StoredFiles(u.files, index, Joined(body)))
        && (result.Err? ==> result.error.NotStored? && v.row == u.row && v.files == u.files)
        && v.writers == u.writers && v.phase == u.phase
  }

  /**
   * On undamaged storage, with a client that has only announced slices of its file: its slice of any part that is not
   * confirmed yet is accepted and confirmed, whatever was left behind by requests that broke off.
   */
  lemma MissingPartIsAccepted(u: Upload, v: Upload, index: int, body: seq<Bytes>, now: int, ttl: int, result: Result<(), ServiceError>)
    requires Inv(u) && !u.past.damaged && !u.past.foreign && u.row.status in {Queued, Uploading}
    requires 0 <= index < PartCount(u.row.meta.size, u.row.meta.chunk) && index !in u.row.parts
    requires index * u.row.meta.chunk < u.row.meta.size && Joined(body) == Slice(u.past.source, u.row.meta.chunk, index)
    requires IsSha256Text(Sha256(Joined(body)))
    requires var (start, endExclusive) := ClientSlice(u.row.meta.size, u.row.meta.chunk, index);
             && 0 <= start < endExclusive
             && PutFrom(u, v, index, ContentRange(start, endExclusive - 1, u.row.meta.size), Sha256(Joined(body)),
                        u.row.meta.deviceId, body, now, ttl, result)
    ensures result.Ok? && v.row.status == Uploading
    ensures v.row.parts == u.row.parts[index := SlotPart(u.row, index, Sha256(Joined(body)))]
    ensures v.row.confirmed == u.row.confirmed + |Joined(body)|
  {
    ClientSliceNamesSlot(u.row.meta.size, u.row.meta.chunk, index);
    SliceIsStorable(u, index, body);
    Update(u.row.parts, PartSize, index, SlotPart(u.row, index, Sha256(Joined(body))));
  }

  lemma SliceIsStorable(u: Upload, index: int, body: seq<Bytes>)
    requires Inv(u) && !u.past.damaged && !u.past.foreign && 0 <= index && index * u.row.meta.chunk < u.row.meta.size
    requires Joined(body) == Slice(u.past.source, u.row.meta.chunk, index)
    ensures SlotPart(u.row, index, Sha256(Joined(body))).size == |Joined(body)|
    ensures Storable(u, index, SlotPart(u.row, index, Sha256(Joined(body))), body)
  {
    SlotIsInside(u.row.meta.size, u.row.meta.chunk, index);
    if index in u.files.parts {
      assert HoldsSlice(u, index) && IsSlotSized(u, index);
    }
  }

  lemma PutOutcome(u: Upload, m: Upload, v: Upload, w: nat, index: int, contentRange: string, sha: Digest, deviceId: Id,
                   body: seq<Bytes>, now: int, ttl: int, result: Result<(), ServiceError>)
    requires Answers(u.row, index, contentRange, sha, deviceId, Ok(Some(SlotPart(u.row, index, sha)))) && w !in u.writers
    requires m == u.(writers := u.writers[w := Writer(index, SlotPart(u.row, index, sha), [], false)], past := m.past)
    requires LeasedFrom(m, v, w, index, SlotPart(u.row, index, sha), body, now, ttl, result)
    ensures PutFrom(u, v, index, contentRange, sha, deviceId, body, now, ttl, result)
  {
    assert u.writers[w := Writer(index, SlotPart(u.row, index, sha), [], false)] - {w} == u.writers;
  }

  /** The bad part is gone, its file and its row, and the upload has failed. */
  ghost function Invalidated(u: Upload, bad: int, now: int, ttl: int): Upload {
    var code := if bad in u.files.parts then "integrity_error" else "missing_part";
    var outcome := InvalidatePart(u.row, bad, code, now, ttl);
    u.(files := u.files.(parts := u.files.parts - {bad}), phase := Idle, row := if outcome.Ok? then outcome.value else u.row)
  }

  /**
   * From a started assembly: a stale final.uploading is removed and ends the request; else the first bad part is
   * invalidated; else the whole copy goes on to be published.
   */
  ghost predicate PlannedFrom(u: Upload, v: Upload, parts: map<int, Part>, now: int, ttl: int, io: Io, insertable: bool,
                              result: Result<(), ServiceError>) {
    if u.files.temp.Some? then result == Err(InputOutput) && v == u.(files := u.files.(temp := None), phase := Idle)
    else if AllStored(u.files, parts, |parts|) then
      var whole := Concat(u.files.parts, |parts|);
      var pending := Pending(|whole|, Sha256(whole));
      && pending.size == u.row.meta.size
      && FinalFrom(u.(files := u.files.(temp := Some(whole)), phase := Ready(pending)), v, pending, now, ttl, io, insertable, result)
    else
      && result == Err(BadUploadPart)
      && exists bad :: FirstBad(u.files, parts, bad) && v == Invalidated(u, bad, now, ttl)
  }

  /**
   * When a complete request from the source device ends with the message: it has it already; a verified copy is
   * ready or waits to be renamed; or every part is stored and confirmed, there is room for the copy, and no stale
   * final.uploading is in the way, which an upload found in assembling first removes.
   */
  ghost predicate Completable(u: Upload, freeBytes: int, reserve: int, io: Io, insertable: bool) {
    || u.row.status == Complete
    || (u.row.status == Verifying && u.row.publication != Assembling && Publishable(u, io) && insertable)
    || (freeBytes >= u.row.meta.size + reserve && insertable && io.canRename && AllStored(u.files, u.row.parts, |u.row.parts|)
        && (|| (u.row.status == Verifying && u.row.publication == Assembling)
            || (u.row.status == Uploading && u.row.confirmed == u.row.meta.size && u.files.temp.None?)))
  }

  ghost predicate CompletedFrom(u: Upload, v: Upload, deviceId: Id, now: int, ttl: int, freeBytes: int, reserve: int, io: Io,
                                insertable: bool, result: Result<(), ServiceError>) {
    && v.phase == Idle
    && (result.Ok? <==> u.row.meta.deviceId == deviceId && Completable(u, freeBytes, reserve, io, insertable))
    && (result.Ok? <==> v.row.status == Complete && u.row.meta.deviceId == deviceId)
    && (result.Ok? && u.row.status != Complete ==> VerifiedFinal(v))
    && EndedFrom(u, v, deviceId, now, ttl, freeBytes, reserve, io, insertable, result)
  }

  /** The row with which the assembly starts. */
  ghost function AssemblingRow(row: Session, now: int, ttl: int): Session {
    row.(status := Verifying, publication := Assembling, expiresAt := now + ttl)
  }

  /** What an uninterrupted complete request has done, with each result it can have. */
  ghost predicate EndedFrom(u: Upload, v: Upload, deviceId: Id, now: int, ttl: int, freeBytes: int, reserve: int, io: Io,
                            insertable: bool, result: Result<(), ServiceError>) {
    if u.row.meta.deviceId != deviceId then result == Err(Rejected(StateConflict)) && v == u.(phase := Idle)
    else if u.row.status == Complete then result == Ok(()) && v == u.(phase := Idle)
    else if u.row.status == Verifying && u.row.publication != Assembling then
      DrivenFrom(u, v.(phase := Waiting), now, ttl, io, insertable, result)
    else
      var r := if u.row.status == Verifying then Restarted(u) else u;
      if freeBytes < u.row.meta.size + reserve then result == Err(NoSpace) && v == r.(phase := Idle)
      else if r.row.status != Uploading || r.row.confirmed != r.row.meta.size then
        result == Err(Rejected(StateConflict)) && v == r.(phase := Idle)
      else
        PlannedFrom(r.(row := AssemblingRow(r.row, now, ttl), phase := Opening(r.row.parts)), v, r.row.parts, now, ttl, io, insertable,
                    result)
  }

  /** What the first section of complete leaves for the rest of it. */
  lemma BegunOutcome(u: Upload, v: Upload, deviceId: Id, now: int, ttl: int, freeBytes: int, reserve: int, io: Io,
                     insertable: bool, begun: Result<Begun, ServiceError>)
    requires ValidRow(u.row) && u.phase == Waiting
    requires BegunFrom(u, v, deviceId, now, ttl, freeBytes, reserve, io, insertable, begun)
    ensures begun == Ok(Finished) ==>
              CompletedFrom(u, v, deviceId, now, ttl, freeBytes, reserve, io, insertable, Ok(()))
    ensures begun.Err? ==> CompletedFrom(u, v, deviceId, now, ttl, freeBytes, reserve, io, insertable, Err(begun.error))
    ensures begun.Ok? && begun.value.Planned? ==>
              && StartedFrom(u, v, deviceId, now, ttl, freeBytes, reserve, begun.value.plan)
              && Assemblable(v, begun.value.plan)
  {
    BeginCompletionKeeps(u.row, now, ttl);
    ControlKeeps(u.row, Pause, "", now, ttl);
    BeginCompletionKeeps(ResetAssembling(u.row), now, ttl);
    GridTheorem(u.row.parts, u.row.meta.size, u.row.meta.chunk);
  }

  /** A fully confirmed upload, fresh or restarted from assembling, is being assembled. */
  ghost predicate StartedFrom(u: Upload, m: Upload, deviceId: Id, now: int, ttl: int, freeBytes: int, reserve: int,
                              plan: map<int, Part>) {
    && u.row.meta.deviceId == deviceId && plan == u.row.parts && freeBytes >= u.row.meta.size + reserve
    && (u.row.status == Uploading || (u.row.status == Verifying && u.row.publication == Assembling))
    && u.row.confirmed == u.row.meta.size
    && var r := if u.row.status == Verifying then Restarted(u) else u;
       m == r.(row := AssemblingRow(r.row, now, ttl), phase := Opening(plan))
  }

  lemma PlannedOutcome(u: Upload, m: Upload, v: Upload, deviceId: Id, now: int, ttl: int, freeBytes: int, reserve: int,
                       io: Io, insertable: bool, plan: map<int, Part>, result: Result<(), ServiceError>)
    requires StartedFrom(u, m, deviceId, now, ttl, freeBytes, reserve, plan)
    requires PlannedFrom(m, v, plan, now, ttl, io, insertable, result)
    ensures CompletedFrom(u, v, deviceId, now, ttl, freeBytes, reserve, io, insertable, result)
  {
    assert AllStored(m.files, plan, |plan|) <==> AllStored(u.files, plan, |plan|);
  }

  /** The row is complete, the final file is the one found; the directory is swept when that works. */
  ghost predicate FinalizedFrom(u: Upload, v: Upload, io: Io) {
    && v.row.messageId.Some?
    && v == u.(row := u.row.(status := Complete, publication := Published, messageId := v.row.messageId, error := None),
               files := if io.canRemove then Files(map[], None, u.files.final) else u.files)
  }

  /** The last section of complete in all its outcomes. */
  ghost predicate FinalFrom(u: Upload, v: Upload, pending: Pending, now: int, ttl: int, io: Io, insertable: bool,
                            result: Result<(), ServiceError>) {
    if !(u.row.status == Verifying && u.row.publication == Assembling) then
      result == Err(Rejected(StateConflict)) && v == u.(files := u.files.(temp := None), phase := Idle)
    else
      var assembled := u.row.(publication := Assembled, fileSha := Some(pending.sha), expiresAt := now + ttl);
      if !io.canRename || u.files.temp.None? then result == Err(InputOutput) && v == u.(row := assembled, phase := Idle)
      else
        var published := u.(row := assembled.(publication := FilePublished), files := u.files.(final := u.files.temp, temp := None));
        if insertable then result == Ok(()) && FinalizedFrom(published.(phase := Idle), v, io)
        else result == Err(Rejected(IntegrityViolation)) && v == published.(phase := Idle)
  }

  ghost predicate FreshFrom(u: Upload, v: Upload, now: int, ttl: int, freeBytes: int, reserve: int, result: Result<Begun, ServiceError>) {
    var outcome := BeginCompletion(u.row, now, ttl);
    if freeBytes < u.row.meta.size + reserve then result == Err(NoSpace) && v == u.(phase := Idle)
    else if outcome.Err? then result == Err(Rejected(outcome.error)) && v == u.(phase := Idle)
    else result == Ok(Planned(u.row.parts)) && v == u.(row := outcome.value, phase := Opening(u.row.parts))
  }

  ghost function Restarted(u: Upload): Upload {
    u.(row := ResetAssembling(u.row), files := u.files.(temp := None))
  }

  ghost predicate BegunFrom(u: Upload, v: Upload, deviceId: Id, now: int, ttl: int, freeBytes: int, reserve: int, io: Io,
                            insertable: bool, result: Result<Begun, ServiceError>) {
    if u.row.meta.deviceId != deviceId then result == Err(Rejected(StateConflict)) && v == u.(phase := Idle)
    else if u.row.status == Complete then result == Ok(Finished) && v == u.(phase := Idle)
    else if u.row.status == Verifying && u.row.publication == Assembling then
      FreshFrom(Restarted(u), v, now, ttl, freeBytes, reserve, result)
    else if u.row.status == Verifying then
      && v.phase == Idle
      && (result.Ok? ==> result.value == Finished)
      && DrivenFrom(u, v.(phase := Waiting), now, ttl, io, insertable, if result.Ok? then Ok(()) else Err(result.error))
    else FreshFrom(u, v, now, ttl, freeBytes, reserve, result)
  }

  lemma SlotsHaveBounds(s: Session)
    requires ValidRow(s)
    ensures forall i :: i in s.parts ==> s.parts[i].start >= 0 && s.parts[i].end >= s.parts[i].start
  {
    forall i | i in s.parts
      ensures s.parts[i].start >= 0 && s.parts[i].end >= s.parts[i].start
    {
      SlotIsInside(s.meta.size, s.meta.chunk, i);
    }
  }

  /** The phase in which the outcome of assemble leaves the complete request. */
  function PhaseAfter(outcome: Result<Pending, AssemblyError>): Phase {
    match outcome
    case Ok(pending) => Ready(pending)
    case Err(BadPart(index, missing)) => Broken(index)
    case _ => Idle
  }

  /** The outcome of assemble as complete sees it. */
  function Reported(outcome: Result<Pending, AssemblyError>): Result<Pending, ServiceError> {
    match outcome
    case Ok(pending) => Ok(pending)
    case Err(BadPart(_, _)) => Err(Integrity)
    case Err(_) => Err(InputOutput)
  }

  function BadIndex(outcome: Result<Pending, AssemblyError>): int {
    if outcome.Err? && outcome.error.BadPart? then outcome.error.index else 0
  }

  lemma AssemblyTrail(u: Upload, parts: map<int, Part>, outcome: Result<Pending, AssemblyError>, v: Upload)
    returns (trail: seq<Upload>)
    requires u.phase == Opening(parts) && Assemblable(u, parts)
    requires v == u.(files := v.files, phase := PhaseAfter(outcome))
    requires Assembly(u.files, v.files, u.row.meta.size, parts, outcome)
    ensures Leads(trail, u, v)
    ensures AssembledFrom(u, v, parts, Reported(outcome), BadIndex(outcome))
  {
    PlanIsStructured(u, parts);
    match outcome
    case Ok(pending) => trail := AssembledTrail(u, parts, v);
    case Err(BadPart(index, missing)) => trail := BrokenTrail(u, parts, index, v);
    case Err(_) => trail := RefusedTrail(u, v);
  }

  /** The part rows with which complete started are a full grid of this upload. */
  ghost predicate Assemblable(u: Upload, parts: map<int, Part>) {
    && u.row.meta.size > 0 && u.row.meta.chunk > 0
    && GridRows(parts, u.row.meta.size, u.row.meta.chunk)
    && Full(parts, u.row.meta.size, u.row.meta.chunk)
  }

  lemma PlanIsStructured(u: Upload, parts: map<int, Part>)
    requires Assemblable(u, parts)
    ensures Structured(parts, u.row.meta.size)
  {
    GridTheorem(parts, u.row.meta.size, u.row.meta.chunk);
    StructureCannotFail(parts, u.row.meta.size, u.row.meta.chunk);
  }

  lemma PlanIsWhole(u: Upload, parts: map<int, Part>)
    requires Assemblable(u, parts)
    requires AllStored(u.files, parts, |parts|)
    ensures |Concat(u.files.parts, |parts|)| == u.row.meta.size
  {
    GridTheorem(parts, u.row.meta.size, u.row.meta.chunk);
    StructureCannotFail(parts, u.row.meta.size, u.row.meta.chunk);
    forall k | 0 <= k < |parts|
      ensures |u.files.parts[k]| == SlotSize(u.row.meta.size, u.row.meta.chunk, k)
    {
      assert k in parts && Stored(u.files, k, parts[k]);
    }
    ConcatLength(u.files.parts, |parts|, u.row.meta.size, u.row.meta.chunk);
  }

  lemma RefusedTrail(u: Upload, v: Upload) returns (trail: seq<Upload>)
    requires u.phase.Opening? && u.files.temp.Some?
    requires v == u.(files := u.files.(temp := None), phase := Idle)
    ensures Leads(trail, u, v)
  {
    Took(u, Completion(OpenTemp), v);
    trail := Grow([u], v);
  }

  lemma StartedTrail(u: Upload, parts: map<int, Part>, k: nat) returns (trail: seq<Upload>, started: Upload)
    requires u.phase == Opening(parts) && u.files.temp.None? && k <= |parts|
    requires AllStored(u.files, parts, k)
    ensures started == u.(files := u.files.(temp := Some([])), phase := Copying(parts, 0, []))
    ensures Leads(trail, u, Copied(started, k))
  {
    started := u.(files := u.files.(temp := Some([])), phase := Copying(parts, 0, []));
    Took(u, Completion(OpenTemp), started);
    trail := Grow([u], started);
    var copies := CopyTrail(started, k);
    trail := Join(trail, copies);
  }

  lemma BrokenTrail(u: Upload, parts: map<int, Part>, bad: int, v: Upload) returns (trail: seq<Upload>)
    requires u.phase == Opening(parts) && u.files.temp.None?
    requires 0 <= bad < |parts| && bad in parts && !Stored(u.files, bad, parts[bad])
    requires AllStored(u.files, parts, bad)
    requires v == u.(phase := Broken(bad))
    ensures Leads(trail, u, v)
  {
    var started;
    trail, started := StartedTrail(u, parts, bad);
    Took(Copied(started, bad), Completion(CopyFault), v);
    trail := Grow(trail, v);
  }

  lemma AssembledTrail(u: Upload, parts: map<int, Part>, v: Upload) returns (trail: seq<Upload>)
    requires u.phase == Opening(parts) && u.files.temp.None? && Assemblable(u, parts)
    requires AllStored(u.files, parts, |parts|)
    requires var whole := Concat(u.files.parts, |parts|);
             v == u.(files := u.files.(temp := Some(whole)), phase := Ready(Pending(|whole|, Sha256(whole))))
    ensures Leads(trail, u, v)
    ensures v.phase.pending.size == u.row.meta.size
  {
    var started;
    trail, started := StartedTrail(u, parts, |parts|);
    PlanIsWhole(u, parts);
    Took(Copied(started, |parts|), Completion(CopyDone), v);
    trail := Grow(trail, v);
  }

  /** The first part whose file is missing or not as recorded. */
  ghost predicate FirstBad(files: Files, parts: map<int, Part>, bad: int) {
    0 <= bad < |parts| && AllStored(files, parts, bad) && bad in parts && !Stored(files, bad, parts[bad])
  }

  ghost predicate AssembledFrom(u: Upload, v: Upload, parts: map<int, Part>, result: Result<Pending, ServiceError>, bad: int) {
    if u.files.temp.Some? then result == Err(InputOutput) && v == u.(files := u.files.(temp := None), phase := Idle)
    else if AllStored(u.files, parts, |parts|) then
      var whole := Concat(u.files.parts, |parts|);
      var pending := Pending(|whole|, Sha256(whole));
      && result == Ok(pending) && pending.size == u.row.meta.size
      && v == u.(files := u.files.(temp := Some(whole)), phase := Ready(pending))
    else result == Err(Integrity) && FirstBad(u.files, parts, bad) && v == u.(phase := Broken(bad))
  }

  /** What keeps a verified copy from being brought to the final path. */
  ghost function CopyError(u: Upload, io: Io): Option<ServiceError> {
    if !io.canRead then Some(InputOutput)
    else if VerifiedFinal(u) then None
    else if u.row.publication != Assembled || !VerifiedTemp(u) then Some(Integrity)
    else if !io.canRename then Some(InputOutput)
    else None
  }

  /** A verified copy can be brought to its place. */
  ghost predicate Publishable(u: Upload, io: Io) {
    CopyError(u, io).None?
  }

  /** The verified copy at the final path: found there, or renamed from the temporary path. */
  ghost function Secured(u: Upload): Upload {
    if VerifiedFinal(u) then u else u.(files := u.files.(final := u.files.temp, temp := None))
  }

  ghost function MarkedPublished(u: Upload, now: int, ttl: int): Upload {
    if u.row.publication == FilePublished then u
    else u.(row := u.row.(publication := FilePublished, expiresAt := now + ttl))
  }

  ghost predicate SecuredFrom(u: Upload, v: Upload, io: Io, result: Result<Pending, ServiceError>) {
    if CopyError(u, io).Some? then result == Err(CopyError(u, io).value) && v == u
    else result == Ok(Pending(u.row.meta.size, u.row.fileSha.value)) && v == Secured(u)
  }

  /** The assembled branch: nothing happens without a verified copy; a row no longer verifying keeps its state. */
  ghost predicate PublishedFrom(u: Upload, v: Upload, now: int, ttl: int, io: Io, result: Result<(), ServiceError>) {
    if CopyError(u, io).Some? then result == Err(CopyError(u, io).value) && v == u
    else if u.row.status != Verifying then result == Err(Rejected(StateConflict)) && v == Secured(u)
    else result == Ok(()) && v == MarkedPublished(Secured(u), now, ttl)
  }

  /** The file_published branch: nothing happens unless the upload completes. */
  ghost predicate FinishedFrom(u: Upload, v: Upload, io: Io, insertable: bool, result: Result<(), ServiceError>) {
    if CopyError(u, io).Some? then result == Err(CopyError(u, io).value) && v == u
    else if u.row.status != Verifying then result == Err(Rejected(StateConflict)) && v == u
    else if !insertable then result == Err(Rejected(IntegrityViolation)) && v == u
    else result == Ok(()) && FinalizedFrom(u, v, io)
  }

  /** Both branches in sequence, with what each refusal leaves. */
  ghost predicate DrivenFrom(u: Upload, v: Upload, now: int, ttl: int, io: Io, insertable: bool, result: Result<(), ServiceError>) {
    if CopyError(u, io).Some? then result == Err(CopyError(u, io).value) && v == u
    else if u.row.status != Verifying then result == Err(Rejected(StateConflict)) && v == Secured(u)
    else if !insertable then result == Err(Rejected(IntegrityViolation)) && v == MarkedPublished(Secured(u), now, ttl)
    else result == Ok(()) && FinalizedFrom(MarkedPublished(Secured(u), now, ttl), v, io)
  }

  lemma DrivenOn(u: Upload, m: Upload, v: Upload, now: int, ttl: int, io: Io, insertable: bool, result: Result<(), ServiceError>)
    requires u.row.publication == Assembled && PublishedFrom(u, m, now, ttl, io, Ok(()))
    requires FinishedFrom(m, v, io, insertable, result)
    ensures DrivenFrom(u, v, now, ttl, io, insertable, result)
  {
  }

  /** A publication is restarted from assembling and otherwise driven on. */
  ghost predicate ContinuedFrom(u: Upload, v: Upload, now: int, ttl: int, io: Io, insertable: bool, result: Result<(), ServiceError>) {
    if u.row.publication == Assembling then result.Ok? && v == Restarted(u)
    else DrivenFrom(u, v, now, ttl, io, insertable, result)
  }

  /** The publication has failed: forgotten with its digest, or kept for another attempt. */
  ghost function FailedPublication(u: Upload, reset: bool, now: int, ttl: int): Upload
    requires !Terminal(u.row.status)
  {
    u.(row := Fail(u.row, "publication_error", reset, now, ttl).value, past := u.past.(faulted := u.past.faulted || !reset))
  }

  /**
   * A recovered publication: it fails when its copy is lost, which resets it, or cannot be read or moved, or when the
   * upload had failed before; else it completes, unless the unique keys are taken.
   */
  ghost predicate RepublishedFrom(u: Upload, v: Upload, now: int, ttl: int, io: Io, insertable: bool, result: Result<(), ServiceError>)
    requires !Terminal(u.row.status)
  {
    if CopyError(u, io).Some? then
      result == Ok(()) && v == FailedPublication(u, CopyError(u, io).value == Integrity, now, ttl)
    else if u.row.status != Verifying then result == Ok(()) && v == FailedPublication(Secured(u), false, now, ttl)
    else DrivenFrom(u, v, now, ttl, io, insertable, result)
  }

  ghost predicate DriveSettled(m: Upload, v: Upload, now: int, ttl: int,
                               driven: Result<(), ServiceError>, result: Result<(), ServiceError>) {
    if driven.Ok? || driven.error == Rejected(IntegrityViolation) then v == m && result == driven
    else !Terminal(m.row.status) && result == Ok(()) && v == FailedPublication(m, driven.error == Integrity, now, ttl)
  }

  lemma FailureIsRecordable(u: Upload, m: Upload, now: int, ttl: int, io: Io, insertable: bool, driven: Result<(), ServiceError>)
    requires !Terminal(u.row.status) && u.row.publication in {Assembled, FilePublished} && Quiet(u) && u.writers == map[]
    requires DrivenFrom(u, m, now, ttl, io, insertable, driven)
    ensures driven.Err? && driven.error != Rejected(IntegrityViolation) ==>
              CanMaintain(m, FailPublication(driven.error == Integrity, now, ttl))
  {
  }

  lemma Republished(u: Upload, m: Upload, v: Upload, now: int, ttl: int, io: Io, insertable: bool,
                    driven: Result<(), ServiceError>, result: Result<(), ServiceError>)
    requires !Terminal(u.row.status) && u.row.publication in {Assembled, FilePublished}
    requires DrivenFrom(u, m, now, ttl, io, insertable, driven)
    requires DriveSettled(m, v, now, ttl, driven, result)
    ensures RepublishedFrom(u, v, now, ttl, io, insertable, result)
  {
  }

  ghost predicate SettledFrom(u: Upload, v: Upload, now: int, ttl: int, io: Io, insertable: bool, result: Result<(), ServiceError>) {
    if Terminal(u.row.status) then CleanedFrom(u, v, io) && result.Ok?
    else if u.row.publication == Assembling then result.Ok? && v == Restarted(u)
    else if u.row.publication in {Assembled, FilePublished} then RepublishedFrom(u, v, now, ttl, io, insertable, result)
    else v == u && result.Ok?
  }

  /** Recovery: nothing with requests in flight; else missing parts are reconciled, then the row decides. */
  ghost predicate RecoveredFrom(u: Upload, v: Upload, now: int, ttl: int, io: Io, insertable: bool, result: Result<(), ServiceError>) {
    if !u.phase.Idle? || u.writers != map[] then v == u && result.Ok?
    else SettledFrom(Reconciled(u, now, ttl), v, now, ttl, io, insertable, result)
  }

  ghost function Reconciled(u: Upload, now: int, ttl: int): Upload {
    if Missing(u) == {} then u else u.(row := ReconcileMissing(u.row, Missing(u), now, ttl))
  }

  /** The expired row; parts and final.uploading are swept when that works, the final file stays for the next recovery. */
  ghost predicate ExpiredSwept(u: Upload, v: Upload, io: Io) {
    && v == u.(row := u.row.(status := Expired, error := Some("expired")), files := v.files)
    && v.files == if io.canRemove then Files(map[], None, u.files.final) else u.files
  }

  /** Due, active, and with no request in flight. */
  ghost predicate Expirable(u: Upload, now: int) {
    u.row.expiresAt <= now && Active(u.row.status) && u.phase.Idle? && u.writers == map[]
  }

  /**
   * Exactly the expirable uploads expire, except that a verifying one is recovered first: when that completes it,
   * it stays; when finalization is refused, its error is handed on; else it expires from where recovery left it.
   */
  ghost predicate ExpiredFrom(u: Upload, v: Upload, now: int, ttl: int, io: Io, insertable: bool, result: Result<bool, ServiceError>) {
    if !Expirable(u, now) then result == Ok(false) && v == u
    else if u.row.status != Verifying then result == Ok(true) && ExpiredSwept(u, v, io)
    else ExpiredAfterRecovery(u, v, now, ttl, io, insertable, result)
  }

  ghost predicate ExpiredAfterRecovery(u: Upload, v: Upload, now: int, ttl: int, io: Io, insertable: bool,
                                       result: Result<bool, ServiceError>) {
    exists m: Upload, recovered: Result<(), ServiceError> ::
      && RecoveredFrom(u, m, now, ttl, io, insertable, recovered)
      && (if recovered.Err? then result == Err(recovered.error) && v == m
          else if m.row.status == Complete then result == Ok(false) && v == m
          else result == Ok(true) && ExpiredSwept(m, v, io))
  }

  lemma ActiveAfterRecovery(u: Upload, v: Upload, now: int, ttl: int, io: Io, insertable: bool)
    requires StatusFits(u.row) && u.row.status == Verifying && u.phase.Idle? && u.writers == map[]
    requires RecoveredFrom(u, v, now, ttl, io, insertable, Ok(()))
    ensures v.row.status in {Complete, Uploading, Failed} && v.phase.Idle? && v.writers == map[]
  {
  }

  /**
   * cancel: the row, the unpublished final file, and the directory unless a writer is in flight, whose exit then sweeps
   * it. What cannot be removed stays.
   */
  ghost predicate CancelledFrom(u: Upload, v: Upload, now: int, ttl: int, io: Io, result: Result<(), ServiceError>) {
    if u.row.status in {Complete, Expired} then result == Err(Rejected(StateConflict)) && v == u
    else
      var row := if u.row.status == Cancelled then u.row else u.row.(status := Cancelled, expiresAt := now + ttl);
      var final := if u.row.publication in {Assembled, FilePublished} then None else u.files.final;
      && result == Ok(())
      && v == u.(row := row,
                 files := if !io.canRemove then u.files
                          else if u.writers == map[] then Files(map[], None, final)
                          else u.files.(final := final))
  }

  ghost predicate CleanedFrom(u: Upload, v: Upload, io: Io) {
    && v == u.(files := v.files)
    && (!io.canRemove ==> v == u)
    && (io.canRemove ==>
          && v.files.parts == map[] && v.files.temp.None?
          && v.files.final == if u.row.publication in {Assembled, FilePublished} then None else u.files.final)
  }

  ghost predicate Leads(trail: seq<Upload>, u: Upload, v: Upload) {
    Trail(trail) && trail[0] == u && trail[|trail| - 1] == v
  }

  lemma Took(u: Upload, step: Step, v: Upload)
    requires Can(u, step) && v == After(u, step)
    ensures Next(u, v)
  {
  }

  lemma Grow(trail: seq<Upload>, v: Upload) returns (longer: seq<Upload>)
    requires Trail(trail) && Next(trail[|trail| - 1], v)
    ensures Trail(longer) && longer[0] == trail[0] && longer[|longer| - 1] == v
  {
    longer := trail + [v];
  }

  lemma Join(first: seq<Upload>, second: seq<Upload>) returns (whole: seq<Upload>)
    requires Trail(first) && Trail(second) && first[|first| - 1] == second[0]
    ensures Leads(whole, first[0], second[|second| - 1])
  {
    whole := first + second[1..];
    forall k | 0 < k < |whole|
      ensures Next(whole[k - 1], whole[k])
    {
      if k >= |first| {
        assert whole[k] == second[k - |first| + 1] && whole[k - 1] == second[k - |first|];
      }
    }
  }

  // ---- Liveness ----

  /**
   * On undamaged storage, from every reachable verifying state a retried complete from the source device completes,
   * given working input and output, room for the copy and free unique keys; only assembling is assembled again.
   */
  lemma RetryCompletes(u: Upload, freeBytes: int, reserve: int)
    requires Inv(u) && !u.past.damaged && u.row.status == Verifying
    ensures freeBytes >= u.row.meta.size + reserve ==> Completable(u, freeBytes, reserve, Io(true, true, true), true)
    ensures u.row.publication != Assembling ==> Completable(u, freeBytes, reserve, Io(true, true, true), true)
  {
    EverythingStored(u);
  }

  /**
   * On undamaged storage, complete on an uploading session with every byte confirmed succeeds exactly when no
   * final.uploading is left behind; a stale one makes this request fail and is removed by it, so the next succeeds.
   */
  lemma FullUploadCompletes(u: Upload, freeBytes: int, reserve: int)
    requires Inv(u) && !u.past.damaged && u.row.status == Uploading && u.row.confirmed == u.row.meta.size
    requires freeBytes >= u.row.meta.size + reserve
    ensures Completable(u, freeBytes, reserve, Io(true, true, true), true) <==> u.files.temp.None?
    ensures !u.past.faulted ==> Completable(u, freeBytes, reserve, Io(true, true, true), true)
  {
    GridTheorem(u.row.parts, u.row.meta.size, u.row.meta.chunk);
    EverythingStored(u);
  }

  /**
   * A stale final.uploading costs one attempt. The first complete fails, removes the file and leaves the row and the
   * parts as they were, now verifying; the second one, from any state the first has left, completes.
   */
  lemma StaleFileCostsOneAttempt(
      trail: seq<Upload>, u: Upload, v: Upload, w: Upload, deviceId: Id, now: int, ttl: int, later: int,
      freeBytes: int, freeLater: int, reserve: int, io: Io, first: Result<(), ServiceError>, second: Result<(), ServiceError>)
    requires Inv(u) && !u.past.damaged && u.row.meta.deviceId == deviceId
    requires u.row.status == Uploading && u.row.confirmed == u.row.meta.size && u.files.temp.Some?
    requires freeBytes >= u.row.meta.size + reserve && freeLater >= u.row.meta.size + reserve && io.canRead && io.canRename
    requires Leads(trail, u, v) && CompletedFrom(u.(phase := Waiting), v, deviceId, now, ttl, freeBytes, reserve, io, true, first)
    requires CompletedFrom(v.(phase := Waiting), w, deviceId, later, ttl, freeLater, reserve, io, true, second)
    ensures first == Err(InputOutput)
    ensures v == u.(files := u.files.(temp := None), row := AssemblingRow(u.row, now, ttl), phase := Idle)
    ensures second.Ok? && w.row.status == Complete && VerifiedFinal(w)
  {
    TrailKeeps(trail, |trail| - 1);
    EverythingStored(v);
    assert Completable(v.(phase := Waiting), freeLater, reserve, io, true);
  }

  /**
   * Recovery finds every confirmed part whose file is gone: exactly the others stay confirmed, and a live upload that has
   * lost one fails with what is left, whatever it was doing, until its copy is verified.
   */
  lemma RecoveryFindsMissingParts(u: Upload, v: Upload, now: int, ttl: int, io: Io, insertable: bool, result: Result<(), ServiceError>)
    requires ValidRow(u.row) && u.phase.Idle? && u.writers == map[] && u.row.publication in {Unpublished, Assembling}
    requires RecoveredFrom(u, v, now, ttl, io, insertable, result)
    ensures forall i :: i in v.row.parts <==> i in u.row.parts && i in u.files.parts
    ensures forall i :: i in v.row.parts ==> v.row.parts[i] == u.row.parts[i]
    ensures Terminal(u.row.status) ==> v.row == u.row.(parts := v.row.parts)
    ensures !Terminal(u.row.status) && u.row.parts.Keys <= u.files.parts.Keys ==>
              v.row == if u.row.publication == Assembling then u.row.(status := Uploading, publication := Unpublished, fileSha := None) else u.row
    ensures !Terminal(u.row.status) && !(u.row.parts.Keys <= u.files.parts.Keys) ==>
              v.row == u.row.(parts := v.row.parts, confirmed := PartBytes(v.row.parts), status := Failed,
                              error := Some("missing_part"), publication := Unpublished, fileSha := None, expiresAt := now + ttl)
  {
    MissingExactly(u);
  }

  lemma MissingExactly(u: Upload)
    ensures Missing(u) == {} <==> u.row.parts.Keys <= u.files.parts.Keys
    ensures forall i :: i in u.row.parts - Missing(u) <==> i in u.row.parts && i in u.files.parts
    ensures Missing(u) == {} ==> forall i :: i in u.row.parts ==> i in u.files.parts
  {
    forall i | i in u.row.parts && i !in u.files.parts
      ensures i in Missing(u)
    {
    }
    if u.row.parts.Keys <= u.files.parts.Keys {
      assert forall i :: i !in Missing(u);
      assert Missing(u) == {};
    }
  }

  /** Restart recovery on undamaged storage: no upload stays verifying, and one with an assembled copy is completed. */
  lemma RecoveryCompletes(u: Upload, v: Upload, now: int, ttl: int, result: Result<(), ServiceError>)
    requires Inv(u) && !u.past.damaged && u.phase.Idle? && u.writers == map[] && u.row.status == Verifying
    requires RecoveredFrom(u, v, now, ttl, Io(true, true, true), true, result)
    ensures result.Ok?
    ensures u.row.publication == Assembling ==>
              v.row.status == Uploading && v.row.publication == Unpublished && v.row.parts == u.row.parts && v.files.temp.None?
    ensures u.row.publication != Assembling ==> v.row.status == Complete && VerifiedFinal(v)
  {
    NothingMissing(u);
  }
}
