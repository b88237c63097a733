/**
 * One resumable upload as a state machine: its row, its files, the requests in flight for it, and one step for
 * every transaction, rename, unlink and link. A step may be the last one before a crash, and steps of different
 * requests interleave freely where the code holds no lock across them.
 */
module Publication {
  import opened Common
  import opened Sums
  import opened Grid
  import opened UploadRows
  import opened ChunkFiles

  /** One put_part request between its first and its last locked section. */
  datatype Writer = Writer(index: int, part: Part, received: Bytes, linked: bool)

  /** Where the complete request of this upload stands; at most one runs (`_completing`). */
  datatype Phase =
    | Idle
    | Waiting
    | Opening(plan: map<int, Part>)
    | Copying(plan: map<int, Part>, next: nat, copied: Bytes)
    | Broken(index: int)
    | Ready(pending: Pending)
    | Publishing(pending: Pending)
    | Renamed(pending: Pending)

  /**
   * What happened so far that the code cannot see: the file the client means to send, whether storage was damaged
   * from outside, whether a part was announced that is not a slice of that file, whether a publication failed
   * on input or output, and whether two requests ever carried the same part at once.
   */
  datatype History = History(source: Bytes, damaged: bool, foreign: bool, faulted: bool, crowded: bool)

  datatype Upload = Upload(row: Session, files: Files, writers: map<nat, Writer>, phase: Phase, past: History)

  datatype Step =
    | Put(put: PutStep)
    | Control(control: ControlStep)
    | Completion(completion: CompletionStep)
    | Maintenance(maintenance: MaintenanceStep)

  /** put_part: begin_part, the body, the link, confirm_part, and the exits. */
  datatype PutStep =
    | Admit(w: nat, index: int, part: Part)
    | Receive(w: nat, piece: Bytes)
    | Link(w: nat)
    | Confirm(w: nat, now: int, ttl: int)
    | DiscardLate(w: nat)
    | Leave(w: nat)

  datatype ControlStep =
    | Switch(action: Action, deviceId: Id, now: int, ttl: int)
    | CancelUpload(now: int, ttl: int)
    | DropFinal
    | Sweep(kept: set<int>, keepTemp: bool)

  datatype CompletionStep =
    | Await
    | Start(now: int, ttl: int)
    | OpenTemp
    | CopyPart
    | CopyFault
    | CopyDone
    | Abort
    | DropBroken
    | Invalidate(code: string, now: int, ttl: int)
    | MarkAssembled(now: int, ttl: int)
    | DropAssembled
    | Exit

  /** The steps that complete and recovery share, recovery, expiry, crashes and outside damage. */
  datatype MaintenanceStep =
    | Rename
    | MarkPublished(now: int, ttl: int)
    | FinalizeUpload(messageId: Id)
    | Reconcile(now: int, ttl: int)
    | DropTemp
    | Reset
    | FailPublication(reset: bool, now: int, ttl: int)
    | Expire(now: int, wasDue: bool)
    | Crash
    | Damage(files: Files)

  // ---- Steps ----

  /** No complete request is past its first lock acquisition. */
  predicate Quiet(u: Upload) {
    u.phase.Idle? || u.phase.Waiting?
  }

  ghost predicate FromSource(part: Part, index: int, u: Upload) {
    && u.row.meta.chunk > 0 && 0 <= index && index * u.row.meta.chunk < |u.past.source|
    && part.sha == Sha256(Slice(u.past.source, u.row.meta.chunk, index))
  }

  ghost predicate Carried(u: Upload, index: int) {
    exists w :: w in u.writers && u.writers[w].index == index
  }

  ghost function PastAfterAdmit(u: Upload, index: int, part: Part): History {
    u.past.(foreign := u.past.foreign || !FromSource(part, index, u),
            crowded := u.past.crowded || Carried(u, index))
  }

  ghost predicate CanPut(u: Upload, step: PutStep) {
    match step
    case Admit(w, index, part) =>
      && w !in u.writers
      && OnSlot(part, u.row.meta.size, u.row.meta.chunk, index)
      && BeginPart(u.row, index, part) == Ok(Lease)
    case Receive(w, piece) =>
      w in u.writers && !u.writers[w].linked && |u.writers[w].received| + |piece| <= u.writers[w].part.size
    case Link(w) =>
      && w in u.writers && !u.writers[w].linked
      && Matches(u.writers[w].received, u.writers[w].part)
      && (u.writers[w].index in u.files.parts ==> Stored(u.files, u.writers[w].index, u.writers[w].part))
    case Confirm(w, now, ttl) =>
      && w in u.writers && u.writers[w].linked
      && u.row.status !in {Cancelled, Expired}
      && ConfirmPart(u.row, u.writers[w].index, u.writers[w].part, now, ttl).Ok?
    case DiscardLate(w) =>
      w in u.writers && u.writers[w].linked && u.row.status in {Cancelled, Expired}
    case Leave(w) =>
      w in u.writers
  }

  ghost function AfterPut(u: Upload, step: PutStep): Upload
    requires CanPut(u, step)
  {
    match step
    case Admit(w, index, part) =>
      u.(writers := u.writers[w := Writer(index, part, [], false)],
         past := PastAfterAdmit(u, index, part))
    case Receive(w, piece) =>
      u.(writers := u.writers[w := u.writers[w].(received := u.writers[w].received + piece)])
    case Link(w) =>
      var writer := u.writers[w];
      u.(writers := u.writers[w := writer.(received := [], linked := true)],
         files := if writer.index in u.files.parts then u.files
                  else u.files.(parts := u.files.parts[writer.index := writer.received]))
    case Confirm(w, now, ttl) =>
      u.(row := ConfirmPart(u.row, u.writers[w].index, u.writers[w].part, now, ttl).value)
    case DiscardLate(w) =>
      u.(files := u.files.(parts := u.files.parts - {u.writers[w].index}))
    case Leave(w) =>
      u.(writers := u.writers - {w})
  }

  ghost predicate CanControl(u: Upload, step: ControlStep) {
    match step
    case Switch(action, deviceId, now, ttl) => Transition(u.row, action, deviceId, now, ttl).Ok?
    case CancelUpload(now, ttl) => Cancel(u.row, now, ttl).Ok?
    case DropFinal => u.row.status in {Cancelled, Expired} && u.row.publication in {Assembled, FilePublished}
    case Sweep(kept, keepTemp) => u.row.status == Complete || (u.row.status in {Cancelled, Expired} && u.writers == map[])
  }

  ghost function AfterControl(u: Upload, step: ControlStep): Upload
    requires CanControl(u, step)
  {
    match step
    case Switch(action, deviceId, now, ttl) => u.(row := Transition(u.row, action, deviceId, now, ttl).value)
    case CancelUpload(now, ttl) => u.(row := Cancel(u.row, now, ttl).value)
    case DropFinal => u.(files := u.files.(final := None))
    case Sweep(kept, keepTemp) =>
      u.(files := Files(map i | i in u.files.parts && i in kept :: u.files.parts[i],
                        if keepTemp then u.files.temp else None, u.files.final))
  }

  ghost predicate CanComplete(u: Upload, step: CompletionStep) {
    match step
    case Await => u.phase.Idle?
    case Start(now, ttl) => u.phase.Waiting? && BeginCompletion(u.row, now, ttl).Ok?
    case OpenTemp => u.phase.Opening?
    case CopyPart =>
      && u.phase.Copying? && u.phase.next < |u.phase.plan| && u.phase.next in u.phase.plan
      && Stored(u.files, u.phase.next, u.phase.plan[u.phase.next])
    case CopyFault =>
      && u.phase.Copying? && u.phase.next < |u.phase.plan| && u.phase.next in u.phase.plan
      && !Stored(u.files, u.phase.next, u.phase.plan[u.phase.next])
    case CopyDone => u.phase.Copying? && u.phase.next == |u.phase.plan| && |u.phase.copied| == u.row.meta.size
    case Abort => u.phase.Opening? || u.phase.Copying?
    case DropBroken => u.phase.Broken?
    case Invalidate(code, now, ttl) => u.phase.Broken? && InvalidatePart(u.row, u.phase.index, code, now, ttl).Ok?
    case MarkAssembled(now, ttl) =>
      && u.phase.Ready? && u.row.status == Verifying && u.row.publication == Assembling
      && SetPublication(u.row, Assembled, Some(u.phase.pending.sha), now, ttl).Ok?
    case DropAssembled => u.phase.Ready? && !(u.row.status == Verifying && u.row.publication == Assembling)
    case Exit => !u.phase.Opening? && !u.phase.Copying?
  }

  ghost function AfterComplete(u: Upload, step: CompletionStep): Upload
    requires CanComplete(u, step)
  {
    match step
    case Await => u.(phase := Waiting)
    case Start(now, ttl) =>
      u.(row := BeginCompletion(u.row, now, ttl).value, phase := Opening(u.row.parts))
    case OpenTemp =>
      // open("xb"): a file that is already there is removed and ends the request
      if u.files.temp.Some? then u.(files := u.files.(temp := None), phase := Idle)
      else u.(files := u.files.(temp := Some([])), phase := Copying(u.phase.plan, 0, []))
    case CopyPart =>
      var content := u.files.parts[u.phase.next];
      u.(files := u.files.(temp := if u.files.temp.Some? then Some(u.files.temp.value + content) else None),
         phase := Copying(u.phase.plan, u.phase.next + 1, u.phase.copied + content))
    case CopyFault => u.(files := u.files.(temp := None), phase := Broken(u.phase.next))
    case CopyDone => u.(phase := Ready(Pending(|u.phase.copied|, Sha256(u.phase.copied))))
    case Abort => u.(files := u.files.(temp := None), phase := Idle)
    case DropBroken => u.(files := u.files.(parts := u.files.parts - {u.phase.index}))
    case Invalidate(code, now, ttl) =>
      u.(row := InvalidatePart(u.row, u.phase.index, code, now, ttl).value, phase := Idle)
    case MarkAssembled(now, ttl) =>
      u.(row := SetPublication(u.row, Assembled, Some(u.phase.pending.sha), now, ttl).value,
         phase := Publishing(u.phase.pending))
    case DropAssembled => u.(files := u.files.(temp := None), phase := Idle)
    case Exit => u.(phase := Idle)
  }

  ghost predicate VerifiedTemp(u: Upload) {
    IsCopy(u.files.temp, u.row.meta.size, u.row.fileSha)
  }

  ghost predicate VerifiedFinal(u: Upload) {
    IsCopy(u.files.final, u.row.meta.size, u.row.fileSha)
  }

  /** The digest with which the publication goes on: the assembled one, or the one re-read from the final file. */
  ghost function PublishedCopy(u: Upload): Option<Pending> {
    if u.phase.Renamed? then Some(u.phase.pending)
    else if Quiet(u) && VerifiedFinal(u) then Some(Pending(u.row.meta.size, u.row.fileSha.value))
    else None
  }

  ghost function Missing(u: Upload): set<int> {
    set i | i in u.row.parts && i !in u.files.parts
  }

  ghost predicate CanMaintain(u: Upload, step: MaintenanceStep) {
    match step
    case Rename =>
      && u.files.temp.Some? && u.row.publication == Assembled && !Terminal(u.row.status)
      && ((u.phase.Publishing? && u.row.status == Verifying) || (Quiet(u) && VerifiedTemp(u)))
    case MarkPublished(now, ttl) =>
      && PublishedCopy(u).Some?
      && SetPublication(u.row, FilePublished, Some(PublishedCopy(u).value.sha), now, ttl).Ok?
    case FinalizeUpload(messageId) =>
      && PublishedCopy(u).Some? && u.row.status != Complete
      && Finalize(u.row, PublishedCopy(u).value, messageId).Ok?
    case Reconcile(now, ttl) => Quiet(u) && u.writers == map[] && Missing(u) != {}
    case DropTemp => Quiet(u) && u.row.status == Verifying && u.row.publication == Assembling
    case Reset => Quiet(u) && u.files.temp.None?
    case FailPublication(reset, now, ttl) =>
      && Quiet(u) && u.writers == map[] && u.row.publication in {Assembled, FilePublished}
      && (reset ==> !VerifiedFinal(u) && (u.row.publication == Assembled ==> !VerifiedTemp(u)))
      && Fail(u.row, "publication_error", reset, now, ttl).Ok?
    case Expire(now, wasDue) => Quiet(u) && u.writers == map[] && ExpireOne(u.row, now, wasDue).Some?
    case Crash => true
    case Damage(files) => true
  }

  ghost function AfterMaintain(u: Upload, step: MaintenanceStep): Upload
    requires CanMaintain(u, step)
  {
    match step
    case Rename =>
      u.(files := u.files.(final := u.files.temp, temp := None),
         phase := if u.phase.Publishing? then Renamed(u.phase.pending) else u.phase)
    case MarkPublished(now, ttl) =>
      u.(row := SetPublication(u.row, FilePublished, Some(PublishedCopy(u).value.sha), now, ttl).value)
    case FinalizeUpload(messageId) => u.(row := Finalize(u.row, PublishedCopy(u).value, messageId).value)
    case Reconcile(now, ttl) => u.(row := ReconcileMissing(u.row, Missing(u), now, ttl))
    case DropTemp => u.(files := u.files.(temp := None))
    case Reset => u.(row := ResetAssembling(u.row))
    case FailPublication(reset, now, ttl) =>
      u.(row := Fail(u.row, "publication_error", reset, now, ttl).value,
         past := u.past.(faulted := u.past.faulted || !reset))
    case Expire(now, wasDue) => u.(row := ExpireOne(u.row, now, wasDue).value)
    case Crash => u.(writers := map[], phase := Idle)
    case Damage(files) => u.(files := files, past := u.past.(damaged := true))
  }

  ghost predicate Can(u: Upload, step: Step) {
    match step
    case Put(s) => CanPut(u, s)
    case Control(s) => CanControl(u, s)
    case Completion(s) => CanComplete(u, s)
    case Maintenance(s) => CanMaintain(u, s)
  }

  ghost function After(u: Upload, step: Step): Upload
    requires Can(u, step)
  {
    match step
    case Put(s) => AfterPut(u, s)
    case Control(s) => AfterControl(u, s)
    case Completion(s) => AfterComplete(u, s)
    case Maintenance(s) => AfterMaintain(u, s)
  }

  // ---- Invariant ----

  /** While complete works without the lock, nobody but a cancellation touches the row. */
  ghost predicate Busy(row: Session) {
    (row.status == Verifying && row.publication == Assembling) || row.status == Cancelled
  }

  ghost predicate PlanFits(u: Upload, plan: map<int, Part>) {
    && GridRows(plan, u.row.meta.size, u.row.meta.chunk)
    && Full(plan, u.row.meta.size, u.row.meta.chunk)
    && (u.row.status == Verifying ==> plan == u.row.parts)
  }

  ghost predicate PhaseFits(u: Upload) {
    match u.phase
    case Idle => true
    case Waiting => true
    case Opening(plan) => Busy(u.row) && PlanFits(u, plan)
    case Copying(plan, next, copied) =>
      && Busy(u.row) && PlanFits(u, plan)
      && next <= PartCount(u.row.meta.size, u.row.meta.chunk)
      && |copied| == GridBytes(u.row.meta.size, u.row.meta.chunk, next)
    case Broken(index) => Busy(u.row)
    case Ready(pending) => Busy(u.row) && pending.size == u.row.meta.size
    case Publishing(pending) =>
      && pending.size == u.row.meta.size
      && ((u.row.status == Verifying && u.row.publication == Assembled && u.row.fileSha == Some(pending.sha))
          || u.row.status == Cancelled)
    case Renamed(pending) =>
      && pending.size == u.row.meta.size
      && ((u.row.status == Verifying && u.row.publication in {Assembled, FilePublished} && u.row.fileSha == Some(pending.sha))
          || u.row.status in {Cancelled, Complete})
  }

  ghost predicate WriterFits(u: Upload, writer: Writer) {
    && OnSlot(writer.part, u.row.meta.size, u.row.meta.chunk, writer.index)
    && |writer.received| <= writer.part.size
    && (writer.linked ==> writer.received == [])
  }

  ghost predicate Shape(u: Upload) {
    && ValidRow(u.row)
    && |u.past.source| == u.row.meta.size
    && (forall w :: w in u.writers ==> WriterFits(u, u.writers[w]))
    && (u.row.status == Expired ==> u.writers == map[])
    && PhaseFits(u)
  }

  /** What the disk holds as long as nothing but this program has touched it. */
  ghost predicate Intact(u: Upload) {
    && (forall i :: i in u.files.parts ==> IsSlotSized(u, i))
    && (!Terminal(u.row.status) ==> forall i :: i in u.row.parts ==> Stored(u.files, i, u.row.parts[i]))
    && (!Terminal(u.row.status) ==>
          forall w :: w in u.writers && u.writers[w].linked ==> Stored(u.files, u.writers[w].index, u.writers[w].part))
    && (!Terminal(u.row.status) && u.row.publication == Assembled ==> VerifiedTemp(u) || VerifiedFinal(u))
    && (!Terminal(u.row.status) && u.row.publication == FilePublished ==> VerifiedFinal(u))
    && PhaseOnDisk(u)
  }

  ghost predicate IsSlotSized(u: Upload, i: int) {
    && i in u.files.parts
    && 0 <= i && u.row.meta.chunk > 0 && i * u.row.meta.chunk < u.row.meta.size
    && |u.files.parts[i]| == SlotSize(u.row.meta.size, u.row.meta.chunk, i)
  }

  ghost predicate PhaseOnDisk(u: Upload) {
    match u.phase
    case Idle => true
    case Waiting => true
    case Opening(plan) => true
    case Copying(plan, next, copied) =>
      && (u.files.temp.None? || u.files.temp == Some(copied))
      && (u.row.status == Verifying ==> u.files.temp.Some?)
    case Broken(index) => u.row.status == Cancelled
    case Ready(pending) => u.row.status == Verifying ==> IsCopy(u.files.temp, pending.size, Some(pending.sha))
    case Publishing(pending) => u.row.status == Verifying ==> IsCopy(u.files.temp, pending.size, Some(pending.sha))
    case Renamed(pending) => u.row.status == Verifying ==> IsCopy(u.files.final, pending.size, Some(pending.sha))
  }

  /** Which whole copies exist while neither damage nor a failed publication has left one behind. */
  ghost predicate Tidy(u: Upload) {
    && (u.row.status in {Queued, Uploading, Paused, Failed} ==>
          u.row.publication == Unpublished && u.files.temp.None? && u.files.final.None?)
    && (u.row.status == Verifying && u.row.publication == Assembling ==> u.files.final.None?)
    && (u.row.status == Verifying && u.row.publication == Assembled ==> u.files.temp.None? || u.files.final.None?)
    && (u.row.status == Verifying && u.row.publication == FilePublished ==> u.files.temp.None?)
    && (u.row.status in {Cancelled, Expired} && u.row.publication !in {Assembled, FilePublished} ==> u.files.final.None?)
    && (u.files.temp.Some? ==> |u.files.temp.value| <= u.row.meta.size)
    && (u.files.final.Some? ==> |u.files.final.value| <= u.row.meta.size)
  }

  /** One request per part: no two carry the same part, and a part still being received is not confirmed yet. */
  ghost predicate Solo(u: Upload) {
    && (forall w, x :: w in u.writers && x in u.writers && w != x ==> u.writers[w].index != u.writers[x].index)
    && (forall w :: w in u.writers && !u.writers[w].linked ==> u.writers[w].index !in u.row.parts)
  }

  /** What the digests mean as long as every announced part was a slice of the client's file. */
  ghost predicate Faithful(u: Upload) {
    && (forall i :: i in u.row.parts ==> FromSource(u.row.parts[i], i, u))
    && (forall w :: w in u.writers ==> FromSource(u.writers[w].part, u.writers[w].index, u))
    && (Projected(u.row.publication) ==> u.row.fileSha == Some(Sha256(u.past.source)))
    && PhaseFaithful(u)
  }

  ghost predicate PhaseFaithful(u: Upload) {
    match u.phase
    case Idle => true
    case Waiting => true
    case Opening(plan) => forall i :: i in plan ==> FromSource(plan[i], i, u)
    case Copying(plan, next, copied) =>
      && (forall i :: i in plan ==> FromSource(plan[i], i, u))
      && |copied| <= |u.past.source| && copied == u.past.source[..|copied|]
    case Broken(index) => true
    case Ready(pending) => pending.sha == Sha256(u.past.source)
    case Publishing(pending) => pending.sha == Sha256(u.past.source)
    case Renamed(pending) => pending.sha == Sha256(u.past.source)
  }

  /** Every part file has the digest of its slice of the client's file, confirmed or not yet. */
  ghost predicate Honest(u: Upload) {
    && (forall w :: w in u.writers ==> FromSource(u.writers[w].part, u.writers[w].index, u))
    && (forall i :: i in u.files.parts ==> HoldsSlice(u, i))
  }

  ghost predicate HoldsSlice(u: Upload, i: int) {
    && i in u.files.parts && u.row.meta.chunk > 0 && 0 <= i && i * u.row.meta.chunk < |u.past.source|
    && Sha256(u.files.parts[i]) == Sha256(Slice(u.past.source, u.row.meta.chunk, i))
  }

  ghost predicate Inv(u: Upload) {
    && Shape(u)
    && (!u.past.damaged ==> Intact(u))
    && (!u.past.damaged && !u.past.foreign ==> Honest(u))
    && (!u.past.damaged && !u.past.faulted ==> Tidy(u))
    && (!u.past.crowded ==> Solo(u))
    && (CollisionFree() && !u.past.foreign ==> Faithful(u))
  }

  ghost predicate Initial(u: Upload) {
    && (exists now, ttl :: u.row == NewSession(u.row.meta, now, ttl))
    && u.row.meta.size > 0 && u.row.meta.chunk > 0 && |u.past.source| == u.row.meta.size
    && u.files == NoFiles && u.writers == map[] && u.phase == Idle
  }

  lemma InitialInv(u: Upload)
    requires Initial(u)
    ensures Inv(u)
  {
    var now, ttl :| u.row == NewSession(u.row.meta, now, ttl);
    NewSessionIsValid(u.row.meta, now, ttl);
  }
}
