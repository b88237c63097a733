/**
 * All uploads of one server together with the tables they share: messages, files, reservations. Every transaction
 * is one step, in any order that the per-key serialization of the endpoints allows.
 */
module World {
  import opened Common
  import opened Sums
  import opened UploadRows
  import opened UploadTables
  import opened ChunkFiles
  import opened Publication
  import opened PublicationSafety

  datatype Limits = Limits(total: int, reserve: int, maxActive: int)

  /**
   * `holders` are the request ids that a whole-file upload has locked, with whether it has inserted its reservation.
   * `stale` records an admission that was decided on an outdated measurement of free space. `overdraft` is what ended
   * uploads have grown by since the last admission, less what they have given back: admission measures the disk and
   * settles it, a late write for a cancelled upload adds to it, a sweep takes from it.
   */
  datatype World = World(
    uploads: map<Id, Upload>, messages: map<Id, Message>, files: map<Id, FileRow>, reservations: set<Id>,
    holders: map<Id, bool>, stale: bool, overdraft: nat)

  datatype WorldStep =
    | Create(id: Id, creation: Creation, source: Bytes, now: int, ttl: int)
    | Local(id: Id, step: Step)
    | Text(requestId: Id, messageId: Id)
    | Enter(requestId: Id)
    | Reserve(requestId: Id)
    | Drop(requestId: Id)
    | Publish(requestId: Id, fileId: Id, row: FileRow, messageId: Id)
    | Leave(requestId: Id)

  ghost function Rows(uploads: map<Id, Upload>): map<Id, Session> {
    map id | id in uploads :: uploads[id].row
  }

  // ---- Space ----

  function Length(content: Bytes): int {
    |content|
  }

  function Received(writer: Writer): int {
    |writer.received|
  }

  function CopyLength(copy: Option<Bytes>): int {
    if copy.Some? then |copy.value| else 0
  }

  /** The bytes of one upload on disk: parts, bodies being received, final.uploading and the final file. */
  ghost function Usage(u: Upload): int {
    Sum(u.files.parts, Length) + Sum(u.writers, Received) + CopyLength(u.files.temp) + CopyLength(u.files.final)
  }

  ghost function Used(uploads: map<Id, Upload>): int {
    Sum(uploads, Usage)
  }

  ghost function Free(limits: Limits, w: World): int {
    limits.total - Used(w.uploads)
  }

  /** What a step of an upload that is already terminal adds to the disk, or takes from it. */
  ghost function Growth(u: Upload, v: Upload): int {
    if Terminal(u.row.status) then Usage(v) - Usage(u) else 0
  }

  // ---- Steps ----

  ghost predicate Exclusive(w: World, requestId: Id) {
    requestId !in w.holders
  }

  ghost predicate CanCreate(limits: Limits, w: World, id: Id, creation: Creation, source: Bytes) {
    && Exclusive(w, creation.meta.requestId)
    && id !in w.uploads && id !in w.files
    && creation.meta.size > 0 && creation.meta.chunk > 0 && |source| == creation.meta.size
    && creation.maxActive == limits.maxActive
    && !SessionFor(Rows(w.uploads), creation.meta.requestId)
    && Admission(Rows(w.uploads), w.messages, w.reservations, creation).Ok?
  }

  ghost function AfterCreate(limits: Limits, w: World, id: Id, creation: Creation, source: Bytes, now: int, ttl: int): World {
    var u := Upload(NewSession(creation.meta, now, ttl), NoFiles, map[], Idle, History(source, false, false, false, false));
    w.(uploads := w.uploads[id := u], stale := w.stale || creation.budget != Some(Free(limits, w) - limits.reserve),
        overdraft := 0)
  }

  /** create_text: ON CONFLICT(client_request_id) DO NOTHING */
  ghost function AfterText(w: World, requestId: Id, messageId: Id): World {
    if MessageFor(w.messages, requestId) then w
    else w.(messages := w.messages[messageId := Message(None, requestId)])
  }

  /** create_file_message: the message unless its request id has one, and the end of the reservation. */
  ghost function AfterPublish(w: World, requestId: Id, fileId: Id, row: FileRow, messageId: Id): World {
    var settled := w.(reservations := w.reservations - {requestId},
                      holders := if requestId in w.holders then w.holders[requestId := false] else w.holders);
    if MessageFor(w.messages, requestId) then settled
    else settled.(messages := w.messages[messageId := Message(Some(fileId), requestId)], files := w.files[fileId := row])
  }

  ghost predicate CanStep(limits: Limits, w: World, step: WorldStep) {
    match step
    case Create(id, creation, source, now, ttl) => CanCreate(limits, w, id, creation, source)
    case Local(id, s) =>
      && id in w.uploads && Can(w.uploads[id], s)
      && (s.Maintenance? && s.maintenance.FinalizeUpload? ==>
            Insertable(w.messages, w.files, id, w.uploads[id].row.meta.requestId, s.maintenance.messageId))
    case Text(requestId, messageId) =>
      && Exclusive(w, requestId) && messageId !in w.messages
      && !SessionFor(Rows(w.uploads), requestId)
    case Enter(requestId) => Exclusive(w, requestId)
    case Reserve(requestId) =>
      && requestId in w.holders && !w.holders[requestId]
      && requestId !in w.reservations && !SessionFor(Rows(w.uploads), requestId)
    case Drop(requestId) =>
      requestId in w.reservations && (requestId in w.holders ==> !w.holders[requestId])
    case Publish(requestId, fileId, row, messageId) =>
      requestId in w.reservations && messageId !in w.messages && fileId !in w.files && fileId !in w.uploads
    case Leave(requestId) => requestId in w.holders
  }

  ghost function AfterLocal(w: World, id: Id, step: Step): World
    requires id in w.uploads && Can(w.uploads[id], step)
  {
    var u := w.uploads[id];
    var v := After(u, step);
    var moved := w.(uploads := w.uploads[id := v], overdraft := Max(0, w.overdraft + Growth(u, v)));
    if step.Maintenance? && step.maintenance.FinalizeUpload? && v.row.fileSha.Some? then
      moved.(messages := w.messages[step.maintenance.messageId := Message(Some(id), u.row.meta.requestId)],
             files := w.files[id := FileRow(u.row.meta.size, v.row.fileSha.value)])
    else moved
  }

  ghost function AfterStep(limits: Limits, w: World, step: WorldStep): World
    requires CanStep(limits, w, step)
  {
    match step
    case Create(id, creation, source, now, ttl) => AfterCreate(limits, w, id, creation, source, now, ttl)
    case Local(id, s) => AfterLocal(w, id, s)
    case Text(requestId, messageId) => AfterText(w, requestId, messageId)
    case Enter(requestId) => w.(holders := w.holders[requestId := false])
    case Reserve(requestId) => w.(reservations := w.reservations + {requestId}, holders := w.holders[requestId := true])
    case Drop(requestId) => w.(reservations := w.reservations - {requestId})
    case Publish(requestId, fileId, row, messageId) => AfterPublish(w, requestId, fileId, row, messageId)
    case Leave(requestId) => w.(holders := w.holders - {requestId})
  }

  // ---- Tables ----

  /** Every upload owns its request id alone, and has one message and one files row exactly when it is complete. */
  ghost predicate OwnsRequest(w: World, id: Id)
    requires id in w.uploads
  {
    var s := w.uploads[id].row;
    && s.meta.requestId !in w.reservations
    && (s.status != Complete ==> !MessageFor(w.messages, s.meta.requestId) && id !in w.files)
    && (s.status == Complete ==>
          && (forall m :: m in w.messages && w.messages[m].requestId == s.meta.requestId <==> s.messageId == Some(m))
          && s.messageId.Some? && w.messages[s.messageId.value].fileId == Some(id)
          && s.fileSha.Some? && id in w.files && w.files[id] == FileRow(s.meta.size, s.fileSha.value))
  }

  ghost predicate Tables(w: World) {
    && (forall id :: id in w.uploads ==> OwnsRequest(w, id))
    && (forall id, other :: id in w.uploads && other in w.uploads && id != other ==>
          w.uploads[id].row.meta.requestId != w.uploads[other].row.meta.requestId)
    && (forall m, n :: m in w.messages && n in w.messages && m != n ==> w.messages[m].requestId != w.messages[n].requestId)
    && (forall k :: k in w.holders && w.holders[k] ==> k in w.reservations)
    && (forall m :: m in w.messages && w.messages[m].fileId.Some? ==> w.messages[m].fileId.value in w.files)
  }

  ghost predicate UploadsValid(w: World) {
    forall id :: id in w.uploads ==> Inv(w.uploads[id])
  }

  ghost predicate WorldInv(w: World) {
    UploadsValid(w) && Tables(w)
  }

  ghost predicate InitialWorld(w: World) {
    w.uploads == map[] && w.messages == map[] && w.files == map[] && w.reservations == {} && w.holders == map[]
    && w.overdraft == 0
  }

  lemma InitialWorldInv(w: World)
    requires InitialWorld(w)
    ensures WorldInv(w)
  {
  }

  lemma SessionOf(w: World, requestId: Id)
    ensures SessionFor(Rows(w.uploads), requestId) <==> exists id :: id in w.uploads && w.uploads[id].row.meta.requestId == requestId
  {
    if id :| id in w.uploads && w.uploads[id].row.meta.requestId == requestId {
      assert id in Rows(w.uploads) && Rows(w.uploads)[id].meta.requestId == requestId;
    }
  }

  /**
   * Request-id exclusivity: when an upload's row is ready to be finalized, the unique constraints on its file row
   * and on its message always admit it; finalize_publication never ends in an integrity error.
   */
  lemma FinalizationIsNeverRefused(w: World, id: Id, messageId: Id)
    requires WorldInv(w) && id in w.uploads && messageId !in w.messages
    requires w.uploads[id].row.status != Complete
    ensures Insertable(w.messages, w.files, id, w.uploads[id].row.meta.requestId, messageId)
  {
    assert OwnsRequest(w, id);
  }

  /** A message that carries an upload's request id is that upload's own, and then the upload is complete. */
  lemma MessageMeansComplete(w: World, id: Id, m: Id)
    requires WorldInv(w) && id in w.uploads && m in w.messages
    requires w.messages[m].requestId == w.uploads[id].row.meta.requestId || w.messages[m].fileId == Some(id)
    ensures w.messages[m].requestId == w.uploads[id].row.meta.requestId ==>
              w.uploads[id].row.status == Complete && w.uploads[id].row.messageId == Some(m) && w.messages[m].fileId == Some(id)
    ensures w.messages[m].fileId == Some(id) ==> w.uploads[id].row.status == Complete
  {
    assert OwnsRequest(w, id);
  }

  /** Tables change by one message and one file row of a fresh kind, or not at all. */
  lemma FinalizationKeepsTables(limits: Limits, w: World, id: Id, messageId: Id)
    requires WorldInv(w) && CanStep(limits, w, Local(id, Maintenance(FinalizeUpload(messageId))))
    ensures Tables(AfterLocal(w, id, Maintenance(FinalizeUpload(messageId))))
  {
    var u := w.uploads[id];
    FinalizeKeeps(u.row, PublishedCopy(u).value, messageId);
    Completed(w, AfterLocal(w, id, Maintenance(FinalizeUpload(messageId))), id, messageId);
  }

  ghost predicate CompletesTo(w: World, x: World, id: Id, messageId: Id) {
    && id in w.uploads && id in x.uploads && x.uploads == w.uploads[id := x.uploads[id]]
    && Insertable(w.messages, w.files, id, w.uploads[id].row.meta.requestId, messageId)
    && (var s, t := w.uploads[id].row, x.uploads[id].row;
        && s.status != Complete && t.status == Complete && t.meta == s.meta
        && t.messageId == Some(messageId) && t.fileSha.Some?
        && x.messages == w.messages[messageId := Message(Some(id), s.meta.requestId)]
        && x.files == w.files[id := FileRow(s.meta.size, t.fileSha.value)])
    && x.reservations == w.reservations && x.holders == w.holders
  }

  lemma OthersStillOwn(w: World, x: World, id: Id, messageId: Id, other: Id)
    requires Tables(w) && CompletesTo(w, x, id, messageId) && other in x.uploads && other != id
    ensures OwnsRequest(x, other)
  {
    assert other in w.uploads && OwnsRequest(w, other);
    assert w.uploads[other].row.meta.requestId != w.uploads[id].row.meta.requestId;
  }

  lemma CompletedOwns(w: World, x: World, id: Id, messageId: Id)
    requires Tables(w) && CompletesTo(w, x, id, messageId)
    ensures OwnsRequest(x, id)
  {
    assert OwnsRequest(w, id);
  }

  lemma Completed(w: World, x: World, id: Id, messageId: Id)
    requires Tables(w) && CompletesTo(w, x, id, messageId)
    ensures Tables(x)
  {
    CompletedOwns(w, x, id, messageId);
    forall other | other in x.uploads && other != id
      ensures OwnsRequest(x, other)
    {
      OthersStillOwn(w, x, id, messageId, other);
    }
  }

  lemma LocalKeepsTables(limits: Limits, w: World, id: Id, step: Step)
    requires WorldInv(w) && CanStep(limits, w, Local(id, step))
    requires !(step.Maintenance? && step.maintenance.FinalizeUpload?)
    ensures Tables(AfterLocal(w, id, step))
  {
    OnlyFinalizationCompletes(w.uploads[id], step);
    var x := AfterLocal(w, id, step);
    Moved(w, x, id);
  }

  lemma LocalKeepsUploads(w: World, id: Id, step: Step)
    requires UploadsValid(w) && id in w.uploads && Can(w.uploads[id], step)
    ensures UploadsValid(AfterLocal(w, id, step))
  {
    StepKeeps(w.uploads[id], step);
  }

  lemma Moved(w: World, x: World, id: Id)
    requires Tables(w) && id in w.uploads && id in x.uploads
    requires x.uploads == w.uploads[id := x.uploads[id]]
    requires x.messages == w.messages && x.files == w.files && x.reservations == w.reservations && x.holders == w.holders
    requires SameCompletion(w.uploads[id].row, x.uploads[id].row)
    ensures Tables(x)
  {
    forall other | other in x.uploads
      ensures OwnsRequest(x, other)
    {
      assert OwnsRequest(w, other);
    }
  }

  ghost predicate SameCompletion(s: Session, t: Session) {
    && t.meta == s.meta && (t.status == Complete <==> s.status == Complete)
    && (s.status == Complete ==> t.fileSha == s.fileSha && t.messageId == s.messageId)
  }

  lemma CompletionStepsCompleteNone(u: Upload, step: CompletionStep)
    requires ValidRow(u.row) && CanComplete(u, step)
    ensures SameCompletion(u.row, AfterComplete(u, step).row)
  {
  }

  lemma MaintenanceCompletesNone(u: Upload, step: MaintenanceStep)
    requires ValidRow(u.row) && CanMaintain(u, step) && !step.FinalizeUpload?
    ensures SameCompletion(u.row, AfterMaintain(u, step).row)
  {
  }

  /** No other step completes an upload, and none changes what a completed one is. */
  lemma OnlyFinalizationCompletes(u: Upload, step: Step)
    requires Inv(u) && Can(u, step) && !(step.Maintenance? && step.maintenance.FinalizeUpload?)
    ensures SameCompletion(u.row, After(u, step).row)
  {
    match step
    case Put(s) =>
    case Control(s) =>
    case Completion(s) => CompletionStepsCompleteNone(u, s);
    case Maintenance(s) => MaintenanceCompletesNone(u, s);
  }

  lemma CreateKeepsTables(limits: Limits, w: World, id: Id, creation: Creation, source: Bytes, now: int, ttl: int)
    requires WorldInv(w) && CanCreate(limits, w, id, creation, source)
    ensures WorldInv(AfterCreate(limits, w, id, creation, source, now, ttl))
  {
    SessionOf(w, creation.meta.requestId);
    var x := AfterCreate(limits, w, id, creation, source, now, ttl);
    InitialInv(x.uploads[id]);
    Created(w, x, id);
  }

  lemma Created(w: World, x: World, id: Id)
    requires Tables(w) && id !in w.uploads && id in x.uploads && x.uploads == w.uploads[id := x.uploads[id]]
    requires x.messages == w.messages && x.files == w.files && x.reservations == w.reservations && x.holders == w.holders
    requires x.uploads[id].row.status == Queued && id !in w.files
    requires var requestId := x.uploads[id].row.meta.requestId;
             && requestId !in w.reservations && !MessageFor(w.messages, requestId)
             && forall other :: other in w.uploads ==> w.uploads[other].row.meta.requestId != requestId
    ensures Tables(x)
  {
    forall other | other in x.uploads
      ensures OwnsRequest(x, other)
    {
      if other != id {
        assert OwnsRequest(w, other);
      }
    }
  }

  lemma ReserveKeepsTables(w: World, requestId: Id)
    requires Tables(w) && !SessionFor(Rows(w.uploads), requestId)
    ensures Tables(w.(reservations := w.reservations + {requestId}, holders := w.holders[requestId := true]))
  {
    var x := w.(reservations := w.reservations + {requestId}, holders := w.holders[requestId := true]);
    SessionOf(w, requestId);
    forall other | other in x.uploads
      ensures OwnsRequest(x, other)
    {
      assert OwnsRequest(w, other);
    }
  }

  /** A message under a request id that no upload has, with a file row that no upload has, disturbs no upload. */
  lemma MessageAdded(w: World, x: World, messageId: Id, message: Message)
    requires Tables(w) && messageId !in w.messages && !MessageFor(w.messages, message.requestId)
    requires forall id :: id in w.uploads ==> w.uploads[id].row.meta.requestId != message.requestId
    requires x.uploads == w.uploads && x.messages == w.messages[messageId := message]
    requires x.reservations <= w.reservations && (forall k :: k in x.holders && x.holders[k] ==> k in x.reservations)
    requires w.files.Keys <= x.files.Keys && forall id :: id in w.uploads ==> (id in x.files <==> id in w.files)
    requires forall f :: f in w.files ==> x.files[f] == w.files[f]
    requires message.fileId.Some? ==> message.fileId.value in x.files
    ensures Tables(x)
  {
    forall other | other in x.uploads
      ensures OwnsRequest(x, other)
    {
      assert OwnsRequest(w, other);
    }
  }

  lemma TextKeepsTables(w: World, requestId: Id, messageId: Id)
    requires Tables(w) && messageId !in w.messages && !SessionFor(Rows(w.uploads), requestId)
    ensures Tables(AfterText(w, requestId, messageId))
  {
    SessionOf(w, requestId);
    if !MessageFor(w.messages, requestId) {
      MessageAdded(w, AfterText(w, requestId, messageId), messageId, Message(None, requestId));
    }
  }

  lemma ReservedByNone(w: World, requestId: Id)
    requires Tables(w) && requestId in w.reservations
    ensures forall id :: id in w.uploads ==> w.uploads[id].row.meta.requestId != requestId
  {
    forall id | id in w.uploads
      ensures w.uploads[id].row.meta.requestId != requestId
    {
      assert OwnsRequest(w, id);
    }
  }

  lemma PublishKeepsTables(w: World, requestId: Id, fileId: Id, row: FileRow, messageId: Id)
    requires Tables(w) && requestId in w.reservations && messageId !in w.messages && fileId !in w.files && fileId !in w.uploads
    ensures Tables(AfterPublish(w, requestId, fileId, row, messageId))
  {
    var x := AfterPublish(w, requestId, fileId, row, messageId);
    ReservedByNone(w, requestId);
    if MessageFor(w.messages, requestId) {
      ReservationsShrink(w, x);
    } else {
      MessageAdded(w, x, messageId, Message(Some(fileId), requestId));
    }
  }

  lemma ReservationsShrink(w: World, x: World)
    requires Tables(w)
    requires x.uploads == w.uploads && x.messages == w.messages && x.files == w.files
    requires x.reservations <= w.reservations && (forall k :: k in x.holders && x.holders[k] ==> k in x.reservations)
    ensures Tables(x)
  {
    forall other | other in x.uploads
      ensures OwnsRequest(x, other)
    {
      assert OwnsRequest(w, other);
    }
  }

  lemma LocalKeepsWorld(limits: Limits, w: World, id: Id, step: Step)
    requires WorldInv(w) && CanStep(limits, w, Local(id, step))
    ensures WorldInv(AfterLocal(w, id, step))
  {
    LocalKeepsUploads(w, id, step);
    if step.Maintenance? && step.maintenance.FinalizeUpload? {
      FinalizationKeepsTables(limits, w, id, step.maintenance.messageId);
    } else {
      LocalKeepsTables(limits, w, id, step);
    }
  }

  lemma HolderStepKeeps(limits: Limits, w: World, step: WorldStep)
    requires step.Enter? || step.Drop? || step.Leave?
    requires WorldInv(w) && CanStep(limits, w, step)
    ensures WorldInv(AfterStep(limits, w, step))
  {
    ReservationsShrink(w, AfterStep(limits, w, step));
  }

  lemma RequestStepKeeps(limits: Limits, w: World, step: WorldStep)
    requires step.Text? || step.Reserve?
    requires WorldInv(w) && CanStep(limits, w, step)
    ensures WorldInv(AfterStep(limits, w, step))
  {
    match step
    case Text(requestId, messageId) => TextKeepsTables(w, requestId, messageId);
    case Reserve(requestId) => ReserveKeepsTables(w, requestId);
  }

  lemma PublishStepKeeps(limits: Limits, w: World, step: WorldStep)
    requires step.Publish?
    requires WorldInv(w) && CanStep(limits, w, step)
    ensures WorldInv(AfterStep(limits, w, step))
  {
    PublishKeepsTables(w, step.requestId, step.fileId, step.row, step.messageId);
  }

  lemma WorldStepKeeps(limits: Limits, w: World, step: WorldStep)
    requires WorldInv(w) && CanStep(limits, w, step)
    ensures WorldInv(AfterStep(limits, w, step))
  {
    if step.Local? {
      LocalKeepsWorld(limits, w, step.id, step.step);
    } else if step.Create? {
      CreateKeepsTables(limits, w, step.id, step.creation, step.source, step.now, step.ttl);
    } else if step.Enter? || step.Drop? || step.Leave? {
      HolderStepKeeps(limits, w, step);
    } else if step.Publish? {
      PublishStepKeeps(limits, w, step);
    } else {
      RequestStepKeeps(limits, w, step);
    }
  }

  // ---- Requests that nobody contends for ----

  /** A text message is taken whenever its request id belongs to no upload; a repetition finds the one that is there. */
  lemma TextIsServed(limits: Limits, w: World, requestId: Id, messageId: Id)
    requires requestId !in w.holders && messageId !in w.messages
    requires forall id :: id in w.uploads ==> w.uploads[id].row.meta.requestId != requestId
    ensures CanStep(limits, w, Text(requestId, messageId))
    ensures var x := AfterStep(limits, w, Text(requestId, messageId));
            if exists m :: m in w.messages && w.messages[m].requestId == requestId then x == w
            else x == w.(messages := w.messages[messageId := Message(None, requestId)])
  {
  }

  /** A whole file that arrives under a free request id is locked, reserved, published and released, with its message. */
  lemma WholeFileIsServed(limits: Limits, w: World, requestId: Id, fileId: Id, row: FileRow, messageId: Id)
    requires requestId !in w.holders && requestId !in w.reservations && messageId !in w.messages
    requires fileId !in w.files && fileId !in w.uploads
    requires forall id :: id in w.uploads ==> w.uploads[id].row.meta.requestId != requestId
    requires forall m :: m in w.messages ==> w.messages[m].requestId != requestId
    ensures CanStep(limits, w, Enter(requestId))
    ensures var x := AfterStep(limits, w, Enter(requestId));
            && CanStep(limits, x, Reserve(requestId))
            && var y := AfterStep(limits, x, Reserve(requestId));
               && CanStep(limits, y, Publish(requestId, fileId, row, messageId))
               && var z := AfterStep(limits, y, Publish(requestId, fileId, row, messageId));
                  && CanStep(limits, z, WorldStep.Leave(requestId))
                  && AfterStep(limits, z, WorldStep.Leave(requestId))
                     == w.(messages := w.messages[messageId := Message(Some(fileId), requestId)], files := w.files[fileId := row])
  {
    var x := AfterStep(limits, w, Enter(requestId));
    var y := AfterStep(limits, x, Reserve(requestId));
    assert y.reservations - {requestId} == w.reservations;
    assert w.holders[requestId := false][requestId := true][requestId := false] - {requestId} == w.holders;
  }

  /** A reservation that no request works on is recovered: published with its message, or dropped; nothing else changes. */
  lemma LeftReservationEnds(limits: Limits, w: World, requestId: Id, fileId: Id, row: FileRow, messageId: Id)
    requires requestId in w.reservations && (requestId in w.holders ==> w.holders[requestId] == false)
    requires messageId !in w.messages && fileId !in w.files && fileId !in w.uploads
    ensures CanStep(limits, w, Drop(requestId))
    ensures AfterStep(limits, w, Drop(requestId)) == w.(reservations := w.reservations - {requestId})
    ensures CanStep(limits, w, Publish(requestId, fileId, row, messageId))
    ensures var x := AfterStep(limits, w, Publish(requestId, fileId, row, messageId));
            if exists m :: m in w.messages && w.messages[m].requestId == requestId
            then x == w.(reservations := w.reservations - {requestId})
            else x == w.(reservations := w.reservations - {requestId},
                         messages := w.messages[messageId := Message(Some(fileId), requestId)], files := w.files[fileId := row])
  {
    if requestId in w.holders {
      assert w.holders[requestId := false] == w.holders;
    }
  }

  // ---- Runs ----

  ghost predicate Advances(limits: Limits, w: World, x: World) {
    exists step :: CanStep(limits, w, step) && x == AfterStep(limits, w, step)
  }

  ghost predicate RunStep(limits: Limits, states: seq<World>, k: nat)
    requires 0 < k < |states|
  {
    Advances(limits, states[k - 1], states[k])
  }

  ghost predicate Run(limits: Limits, states: seq<World>) {
    && |states| > 0 && InitialWorld(states[0])
    && forall k :: 0 < k < |states| ==> RunStep(limits, states, k)
  }

  lemma AdvanceKeeps(limits: Limits, w: World, x: World)
    requires WorldInv(w) && Advances(limits, w, x)
    ensures WorldInv(x)
  {
    var step :| CanStep(limits, w, step) && x == AfterStep(limits, w, step);
    WorldStepKeeps(limits, w, step);
  }

  /** Over every run of the whole server the tables and all uploads keep their invariants. */
  lemma {:induction false} RunKeeps(limits: Limits, states: seq<World>, k: nat)
    requires Run(limits, states) && k < |states|
    ensures WorldInv(states[k])
  {
    if k == 0 {
      InitialWorldInv(states[0]);
    } else {
      RunKeeps(limits, states, k - 1);
      assert RunStep(limits, states, k);
      AdvanceKeeps(limits, states[k - 1], states[k]);
    }
  }

  /**
   * The safety of the whole server, in one statement over every run: an upload is complete exactly when its message
   * and its files row exist, there is one of each, and the file is the one the client announced.
   */
  lemma RunIsSafe(limits: Limits, states: seq<World>, k: nat, id: Id)
    requires Run(limits, states) && k < |states| && id in states[k].uploads
    ensures var w, s := states[k], states[k].uploads[id].row;
            && (s.status == Complete <==> MessageFor(w.messages, s.meta.requestId))
            && (s.status == Complete <==> id in w.files)
            && (s.status in {Cancelled, Expired} ==> !MessageFor(w.messages, s.meta.requestId))
            && (forall m, n :: m in w.messages && n in w.messages && m != n ==>
                  w.messages[m].requestId != s.meta.requestId || w.messages[n].requestId != s.meta.requestId)
            && (s.status == Complete && CollisionFree() && !w.uploads[id].past.foreign ==>
                  w.files[id] == FileRow(|w.uploads[id].past.source|, Sha256(w.uploads[id].past.source)))
  {
    RunKeeps(limits, states, k);
    assert OwnsRequest(states[k], id) && Inv(states[k].uploads[id]);
  }

  /**
   * At every completing step of every run: the message and the files row are new, the final file has the size and
   * the digest that the row records, and it is the client's file if its parts were announced as slices of that.
   */
  lemma EveryCompletionIsExact(limits: Limits, states: seq<World>, k: nat, id: Id, messageId: Id)
    requires Run(limits, states) && k < |states|
    requires CanStep(limits, states[k], Local(id, Maintenance(FinalizeUpload(messageId))))
    ensures var w, x := states[k], AfterStep(limits, states[k], Local(id, Maintenance(FinalizeUpload(messageId))));
            var u := w.uploads[id];
            && id !in w.files && !MessageFor(w.messages, u.row.meta.requestId)
            && x.uploads[id].row.status == Complete && x.uploads[id].row.messageId == Some(messageId)
            && x.messages == w.messages[messageId := Message(Some(id), u.row.meta.requestId)]
            && id in x.files && x.files == w.files[id := x.files[id]]
            && (!u.past.damaged ==> u.files.final.Some? && x.files[id] == FileRow(|u.files.final.value|, Sha256(u.files.final.value)))
            && (CollisionFree() && !u.past.foreign ==> x.files[id] == FileRow(|u.past.source|, Sha256(u.past.source)))
            && (CollisionFree() && !u.past.foreign && !u.past.damaged ==> u.files.final == Some(u.past.source))
  {
    RunKeeps(limits, states, k);
    assert OwnsRequest(states[k], id);
    CompletionIsExact(states[k].uploads[id], messageId);
  }
}
