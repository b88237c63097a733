/**
 * The upload_sessions row with its upload_parts rows, and every transaction on them as a function from the row
 * before to the row after or to the error that rolls the transaction back.
 */
module UploadRows {
  import opened Common
  import opened Sums
  import opened Grid

  type Id = string

  datatype Status = Queued | Uploading | Paused | Verifying | Failed | Complete | Cancelled | Expired

  /** publication_state: none, assembling, assembled, file_published, published */
  datatype Publication = Unpublished | Assembling | Assembled | FilePublished | Published

  datatype UploadError = NotFound | Conflict | StateConflict | CapacityExceeded | CommitmentExceeded | IntegrityViolation

  /** The columns that are written once, at creation, and compared on a replayed creation. */
  datatype Meta = Meta(
    requestId: Id, deviceId: Id, deviceName: string, name: string, mime: string,
    size: int, lastModified: int, sample: Digest, chunk: int)

  datatype Session = Session(
    meta: Meta, status: Status, publication: Publication, confirmed: int,
    fileSha: Option<Digest>, messageId: Option<Id>, error: Option<string>, expiresAt: int,
    parts: map<int, Part>)

  /** What an assembled or re-read copy is known to be. */
  datatype Pending = Pending(size: int, sha: Digest)

  datatype Grant = Lease | Replay

  datatype Action = Pause | Resume

  predicate Terminal(status: Status) {
    status in {Complete, Cancelled, Expired}
  }

  /** ACTIVE_STATUSES */
  predicate Active(status: Status) {
    status in {Queued, Uploading, Paused, Verifying, Failed}
  }

  /** publication states behind which a whole verified copy already exists */
  predicate Projected(publication: Publication) {
    publication in {Assembled, FilePublished, Published}
  }

  ghost function PartBytes(parts: map<int, Part>): int {
    Sum(parts, PartSize)
  }

  function NewSession(meta: Meta, now: int, ttl: int): Session {
    Session(meta, Queued, Unpublished, 0, None, None, None, now + ttl, map[])
  }

  function BeginPart(s: Session, index: int, part: Part): Result<Grant, UploadError> {
    if index in s.parts then
      if s.parts[index] == part then Ok(Replay) else Err(Conflict)
    else if s.status !in {Queued, Uploading} then Err(StateConflict)
    else if index < 0 || part.start < 0 || part.end < part.start || part.size <= 0 then Err(Conflict)
    else if part.end - part.start + 1 != part.size || part.end >= s.meta.size then Err(Conflict)
    else Ok(Lease)
  }

  ghost function ConfirmPart(s: Session, index: int, part: Part, now: int, ttl: int): Result<Session, UploadError> {
    if index < 0 || part.start < 0 || part.end < part.start || part.size <= 0
       || part.end - part.start + 1 != part.size || part.end >= s.meta.size then Err(Conflict)
    else if index in s.parts then
      if s.parts[index] == part then Ok(s) else Err(Conflict)
    else if s.status !in {Queued, Uploading, Paused} then Err(StateConflict)
    else
      var parts := s.parts[index := part];
      Ok(s.(parts := parts,
            status := if s.status == Queued then Uploading else s.status,
            confirmed := PartBytes(parts),
            expiresAt := now + ttl))
  }

  function ControlTarget(status: Status, action: Action): Option<Status> {
    match (status, action)
    case (Queued, Pause) => Some(Paused)
    case (Uploading, Pause) => Some(Paused)
    case (Failed, Resume) => Some(Uploading)
    case (Paused, Resume) => Some(Uploading)
    case _ => None
  }

  function Transition(s: Session, action: Action, deviceId: Id, now: int, ttl: int): Result<Session, UploadError> {
    if s.meta.deviceId != deviceId then Err(Conflict)
    else
      match ControlTarget(s.status, action)
      case None => Err(StateConflict)
      case Some(target) => Ok(s.(status := target, error := None, expiresAt := now + ttl))
  }

  function Cancel(s: Session, now: int, ttl: int): Result<Session, UploadError> {
    if s.status == Cancelled then Ok(s)
    else if s.status in {Complete, Expired} then Err(StateConflict)
    else Ok(s.(status := Cancelled, expiresAt := now + ttl))
  }

  ghost function BeginCompletion(s: Session, now: int, ttl: int): Result<Session, UploadError> {
    if s.status != Uploading then Err(StateConflict)
    else if !Tiles(s.parts, s.meta.size) then Err(StateConflict)
    else Ok(s.(status := Verifying, publication := Assembling, expiresAt := now + ttl))
  }

  function PublicationOrder(publication: Publication): Option<int> {
    match publication
    case Assembling => Some(0)
    case Assembled => Some(1)
    case FilePublished => Some(2)
    case _ => None
  }

  function SetPublication(s: Session, target: Publication, sha: Option<Digest>, now: int, ttl: int): Result<Session, UploadError> {
    var order, current := PublicationOrder(target), PublicationOrder(s.publication);
    if order.None? then Err(StateConflict)
    else if s.publication == target && s.fileSha == sha then Ok(s)
    else if s.status != Verifying || current.None? || order.value != current.value + 1 then Err(StateConflict)
    else Ok(s.(publication := target, fileSha := if sha.Some? then sha else s.fileSha, expiresAt := now + ttl))
  }

  /** The session's share of finalize_publication; the inserts beside it are in UploadRepository and Ledger. */
  function Finalize(s: Session, pending: Pending, messageId: Id): Result<Session, UploadError> {
    if s.status == Complete then Ok(s)
    else if s.status != Verifying || s.publication != FilePublished then Err(StateConflict)
    else if s.fileSha.None? then Err(StateConflict)
    else if pending != Pending(s.meta.size, s.fileSha.value) then Err(Conflict)
    else Ok(s.(status := Complete, publication := Published, messageId := Some(messageId),
               fileSha := Some(pending.sha), error := None))
  }

  function ResetAssembling(s: Session): Session {
    if s.status == Verifying && s.publication == Assembling
    then s.(status := Uploading, publication := Unpublished, fileSha := None)
    else s
  }

  ghost function ReconcileMissing(s: Session, missing: set<int>, now: int, ttl: int): Session {
    if Projected(s.publication) then s
    else
      var parts := s.parts - missing;
      if Terminal(s.status) then s.(parts := parts)
      else s.(parts := parts, status := Failed, error := Some("missing_part"), publication := Unpublished,
              fileSha := None, confirmed := PartBytes(parts), expiresAt := now + ttl)
  }

  ghost function InvalidatePart(s: Session, index: int, code: string, now: int, ttl: int): Result<Session, UploadError> {
    if Terminal(s.status) then Err(StateConflict)
    else
      var parts := s.parts - {index};
      Ok(s.(parts := parts, status := Failed, error := Some(code), publication := Unpublished,
            fileSha := None, confirmed := PartBytes(parts), expiresAt := now + ttl))
  }

  function ExpireOne(s: Session, now: int, wasDue: bool): Option<Session> {
    if !Active(s.status) then None
    else if !wasDue && s.expiresAt > now then None
    else Some(s.(status := Expired, error := Some("expired")))
  }

  function FinishPublished(s: Session): Session {
    if s.publication == Published && s.messageId.Some? then s.(status := Complete, error := None) else s
  }

  function Fail(s: Session, code: string, reset: bool, now: int, ttl: int): Result<Session, UploadError> {
    if Terminal(s.status) then Err(StateConflict)
    else if s.status == Failed && s.error == Some(code)
            && (!reset || (s.publication == Unpublished && s.fileSha.None? && s.messageId.None?)) then Ok(s)
    else if reset then
      Ok(s.(status := Failed, error := Some(code), publication := Unpublished, fileSha := None,
            messageId := None, expiresAt := now + ttl))
    else Ok(s.(status := Failed, error := Some(code), expiresAt := now + ttl))
  }

  // ---- What every transaction keeps ----

  /** Which statuses, publication states, digests and messages go together. */
  predicate StatusFits(s: Session) {
    && (s.status == Complete <==> s.publication == Published)
    && (s.status == Complete <==> s.messageId.Some?)
    && (s.status == Verifying ==> s.publication in {Assembling, Assembled, FilePublished})
    && (s.publication == Assembling ==> s.status in {Verifying, Cancelled, Expired})
    && (s.status == Queued ==> s.publication == Unpublished)
    && (Projected(s.publication) ==> s.fileSha.Some?)
  }

  ghost predicate ValidRow(s: Session) {
    && s.meta.chunk > 0 && s.meta.size > 0
    && StatusFits(s)
    && GridRows(s.parts, s.meta.size, s.meta.chunk)
    && (s.status == Verifying || Projected(s.publication) ==> Full(s.parts, s.meta.size, s.meta.chunk))
    && (s.status !in {Cancelled, Expired} ==> s.confirmed == PartBytes(s.parts))
  }

  /** What a transaction may do to a row: it keeps validity and identity, and no terminal status is left. */
  ghost predicate Lawful(s: Session, t: Session) {
    && ValidRow(t)
    && t.meta == s.meta
    && (Terminal(s.status) ==> t.status == s.status && t.messageId == s.messageId)
    && (s.status == Complete ==> t.publication == Published && t.fileSha == s.fileSha)
  }

  lemma NewSessionIsValid(meta: Meta, now: int, ttl: int)
    requires meta.size > 0 && meta.chunk > 0
    ensures ValidRow(NewSession(meta, now, ttl))
  {
  }

  /**
   * What begin_part answers for a slot of the grid: a lease exactly for a new part of an open upload, a replay exactly
   * for the identical confirmed part, a conflict exactly for a different one.
   */
  lemma LeasedExactlyWhileOpen(s: Session, index: int, part: Part)
    requires ValidRow(s) && OnSlot(part, s.meta.size, s.meta.chunk, index)
    ensures BeginPart(s, index, part) == Ok(Lease) <==> index !in s.parts && s.status in {Queued, Uploading}
    ensures BeginPart(s, index, part) == Ok(Replay) <==> index in s.parts && s.parts[index] == part
    ensures BeginPart(s, index, part) == Err(Conflict) <==> index in s.parts && s.parts[index] != part
    ensures BeginPart(s, index, part) == Err(StateConflict) <==> index !in s.parts && s.status !in {Queued, Uploading}
  {
    SlotIsInside(s.meta.size, s.meta.chunk, index);
  }

  /**
   * A confirmation of a grid slot keeps the row valid, never changes a confirmed part, and adds exactly its bytes. A new
   * part is accepted while the upload is queued, uploading or paused, opens a queued one and leaves a paused one paused.
   */
  lemma ConfirmKeeps(s: Session, index: int, part: Part, now: int, ttl: int)
    requires ValidRow(s)
    requires OnSlot(part, s.meta.size, s.meta.chunk, index)
    requires ConfirmPart(s, index, part, now, ttl).Ok?
    ensures var t := ConfirmPart(s, index, part, now, ttl).value;
            && Lawful(s, t)
            && t.parts == s.parts[index := part]
            && (index in s.parts ==> t == s)
            && (index !in s.parts ==>
                  && s.status in {Queued, Uploading, Paused}
                  && t.status == (if s.status == Queued then Uploading else s.status)
                  && t.expiresAt == now + ttl
                  && t.confirmed == s.confirmed + part.size)
            && t.fileSha == s.fileSha && t.publication == s.publication
  {
    var t := ConfirmPart(s, index, part, now, ttl).value;
    if index in s.parts {
      assert s.parts[index := part] == s.parts;
    } else {
      Update(s.parts, PartSize, index, part);
    }
  }

  /** Which confirmations of a grid slot are accepted, and why the others are not. */
  lemma ConfirmedExactly(s: Session, index: int, part: Part, now: int, ttl: int)
    requires OnSlot(part, s.meta.size, s.meta.chunk, index)
    ensures ConfirmPart(s, index, part, now, ttl).Ok? <==>
              if index in s.parts then s.parts[index] == part else s.status in {Queued, Uploading, Paused}
    ensures ConfirmPart(s, index, part, now, ttl).Err? ==>
              ConfirmPart(s, index, part, now, ttl).error == if index in s.parts then Conflict else StateConflict
  {
    SlotIsInside(s.meta.size, s.meta.chunk, index);
  }

  lemma BeginCompletionKeeps(s: Session, now: int, ttl: int)
    requires ValidRow(s)
    ensures BeginCompletion(s, now, ttl).Ok? <==> s.status == Uploading && s.confirmed == s.meta.size
    ensures BeginCompletion(s, now, ttl).Ok? ==> Lawful(s, BeginCompletion(s, now, ttl).value)
  {
    GridTheorem(s.parts, s.meta.size, s.meta.chunk);
  }

  lemma ControlKeeps(s: Session, action: Action, deviceId: Id, now: int, ttl: int)
    requires ValidRow(s)
    ensures Transition(s, action, deviceId, now, ttl).Ok? ==> Lawful(s, Transition(s, action, deviceId, now, ttl).value)
    ensures Cancel(s, now, ttl).Ok? ==> Lawful(s, Cancel(s, now, ttl).value)
    ensures forall wasDue :: ExpireOne(s, now, wasDue).Some? ==> Lawful(s, ExpireOne(s, now, wasDue).value)
    ensures Lawful(s, ResetAssembling(s))
    ensures FinishPublished(s) == if s.status == Complete then s.(error := None) else s
    ensures Lawful(s, FinishPublished(s))
  {
  }

  /**
   * set_publication_state accepts exactly a repetition of the recorded state or, in verifying, the next one; the row
   * stays valid exactly when a projected state has a digest, given now or recorded before. All callers give one.
   */
  lemma PublicationKeeps(s: Session, target: Publication, sha: Option<Digest>, now: int, ttl: int)
    requires ValidRow(s)
    ensures SetPublication(s, target, sha, now, ttl).Ok? <==>
              && target in {Assembling, Assembled, FilePublished}
              && (|| (s.publication == target && s.fileSha == sha)
                  || (s.status == Verifying && (s.publication, target) in {(Assembling, Assembled), (Assembled, FilePublished)}))
    ensures SetPublication(s, target, sha, now, ttl).Ok? ==>
              var t := SetPublication(s, target, sha, now, ttl).value;
              && t.publication == target && t.status == s.status && t.fileSha == (if sha.Some? then sha else s.fileSha)
              && (Lawful(s, t) <==> target == Assembling || sha.Some? || s.fileSha.Some?)
  {
  }

  /** A completed row is complete with its message, and only a verifying row with a published file gets there. */
  lemma FinalizeKeeps(s: Session, pending: Pending, messageId: Id)
    requires ValidRow(s)
    ensures Finalize(s, pending, messageId).Ok? ==>
              && Lawful(s, Finalize(s, pending, messageId).value)
              && Finalize(s, pending, messageId).value.status == Complete
              && (s.status != Complete ==>
                    s.status == Verifying && s.publication == FilePublished && pending == Pending(s.meta.size, s.fileSha.value))
  {
  }

  lemma RemovalKeeps(s: Session, missing: set<int>, index: int, code: string, now: int, ttl: int)
    requires ValidRow(s)
    ensures Lawful(s, ReconcileMissing(s, missing, now, ttl))
    ensures InvalidatePart(s, index, code, now, ttl).Ok? ==> Lawful(s, InvalidatePart(s, index, code, now, ttl).value)
    ensures InvalidatePart(s, index, code, now, ttl).Ok? <==> !Terminal(s.status)
    ensures InvalidatePart(s, index, code, now, ttl).Ok? ==>
              var t := InvalidatePart(s, index, code, now, ttl).value;
              && t.status == Failed && t.error == Some(code) && t.publication == Unpublished && t.fileSha.None?
              && index !in t.parts && (forall i :: i in s.parts && i != index ==> i in t.parts && t.parts[i] == s.parts[i])
    ensures var t := ReconcileMissing(s, missing, now, ttl);
            if Projected(s.publication) then t == s
            else
              && (forall i :: i in t.parts <==> i in s.parts && i !in missing)
              && (if Terminal(s.status) then t.status == s.status && t.confirmed == s.confirmed
                  else t.status == Failed && t.publication == Unpublished && t.fileSha.None?)
  {
  }

  /** fail without a reset leaves the row invalid exactly beside an assembly in progress, where only a reset removes it. */
  lemma FailKeeps(s: Session, code: string, reset: bool, now: int, ttl: int)
    requires ValidRow(s)
    ensures Fail(s, code, reset, now, ttl).Ok? <==> !Terminal(s.status)
    ensures Fail(s, code, reset, now, ttl).Ok? ==>
              var t := Fail(s, code, reset, now, ttl).value;
              && (Lawful(s, t) <==> reset || s.publication != Assembling)
              && t.status == Failed && t.error == Some(code) && t.parts == s.parts && t.confirmed == s.confirmed
              && (if reset then t.publication == Unpublished && t.fileSha.None?
                  else t.publication == s.publication && t.fileSha == s.fileSha)
  {
  }
}
