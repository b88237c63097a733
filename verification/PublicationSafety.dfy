/** Every step of an upload keeps its invariant. */
module PublicationSafety {
  import opened Common
  import opened Sums
  import opened Grid
  import opened UploadRows
  import opened ChunkFiles
  import opened Publication

  /** A step changes neither the creation metadata nor the client's file, and no terminal status is ever left. */
  ghost predicate SameUpload(u: Upload, v: Upload) {
    && Lawful(u.row, v.row)
    && v.past.source == u.past.source
    && (u.past.damaged ==> v.past.damaged)
    && (u.past.foreign ==> v.past.foreign)
    && (u.past.faulted ==> v.past.faulted)
    && (u.past.crowded ==> v.past.crowded)
  }

  lemma PutShape(u: Upload, step: PutStep)
    requires Shape(u) && CanPut(u, step)
    ensures Shape(AfterPut(u, step)) && SameUpload(u, AfterPut(u, step))
  {
    match step
    case Confirm(w, now, ttl) => ConfirmKeeps(u.row, u.writers[w].index, u.writers[w].part, now, ttl);
    case _ =>
  }

  lemma ControlShape(u: Upload, step: ControlStep)
    requires Shape(u) && CanControl(u, step)
    ensures Shape(AfterControl(u, step)) && SameUpload(u, AfterControl(u, step))
  {
    match step
    case Switch(action, deviceId, now, ttl) => ControlKeeps(u.row, action, deviceId, now, ttl);
    case CancelUpload(now, ttl) => ControlKeeps(u.row, Pause, "", now, ttl);
    case _ =>
  }

  lemma CompletionShape(u: Upload, step: CompletionStep)
    requires Shape(u) && CanComplete(u, step)
    ensures Shape(AfterComplete(u, step)) && SameUpload(u, AfterComplete(u, step))
  {
    match step
    case Start(now, ttl) =>
      BeginCompletionKeeps(u.row, now, ttl);
      GridTheorem(u.row.parts, u.row.meta.size, u.row.meta.chunk);
    case CopyPart =>
      FullCount(u.phase.plan, u.row.meta.size, u.row.meta.chunk);
      InGrid(u.row.meta.size, u.row.meta.chunk, u.phase.next);
      GridBytesStep(u.row.meta.size, u.row.meta.chunk, u.phase.next);
    case Invalidate(code, now, ttl) => RemovalKeeps(u.row, {}, u.phase.index, code, now, ttl);
    case MarkAssembled(now, ttl) => PublicationKeeps(u.row, Assembled, Some(u.phase.pending.sha), now, ttl);
    case _ =>
  }

  lemma MaintenanceShape(u: Upload, step: MaintenanceStep)
    requires Shape(u) && CanMaintain(u, step)
    ensures Shape(AfterMaintain(u, step)) && SameUpload(u, AfterMaintain(u, step))
  {
    match step
    case MarkPublished(now, ttl) =>
      PublicationKeeps(u.row, FilePublished, Some(PublishedCopy(u).value.sha), now, ttl);
    case FinalizeUpload(messageId) => FinalizeKeeps(u.row, PublishedCopy(u).value, messageId);
    case Reconcile(now, ttl) => RemovalKeeps(u.row, Missing(u), 0, "", now, ttl);
    case Reset => ControlKeeps(u.row, Pause, "", 0, 0);
    case FailPublication(reset, now, ttl) => FailKeeps(u.row, "publication_error", reset, now, ttl);
    case Expire(now, wasDue) => ControlKeeps(u.row, Pause, "", now, 0);
    case _ =>
  }

  // ---- Disk ----

  lemma PutIntact(u: Upload, step: PutStep)
    requires Shape(u) && Intact(u) && CanPut(u, step)
    ensures Intact(AfterPut(u, step))
  {
    PutShape(u, step);
    match step
    case Confirm(w, now, ttl) => ConfirmKeeps(u.row, u.writers[w].index, u.writers[w].part, now, ttl);
    case _ =>
  }

  lemma ControlIntact(u: Upload, step: ControlStep)
    requires Shape(u) && Intact(u) && CanControl(u, step)
    ensures Intact(AfterControl(u, step))
  {
    ControlShape(u, step);
  }

  lemma AssemblyIntact(u: Upload, step: CompletionStep)
    requires Shape(u) && Intact(u) && CanComplete(u, step)
    requires step.OpenTemp? || step.CopyPart? || step.CopyFault? || step.CopyDone? || step.Abort?
    ensures Intact(AfterComplete(u, step))
  {
  }

  lemma CompletionIntact(u: Upload, step: CompletionStep)
    requires Shape(u) && Intact(u) && CanComplete(u, step)
    ensures Intact(AfterComplete(u, step))
  {
    if step.OpenTemp? || step.CopyPart? || step.CopyFault? || step.CopyDone? || step.Abort? {
      AssemblyIntact(u, step);
    } else {
      CompletionShape(u, step);
    }
  }

  lemma MaintenanceIntact(u: Upload, step: MaintenanceStep)
    requires Shape(u) && Intact(u) && CanMaintain(u, step)
    requires !step.Damage?
    ensures Intact(AfterMaintain(u, step))
  {
    MaintenanceShape(u, step);
    match step
    case FinalizeUpload(messageId) => FinalizeKeeps(u.row, PublishedCopy(u).value, messageId);
    case _ =>
  }

  lemma PutSolo(u: Upload, step: PutStep)
    requires Shape(u) && Solo(u) && CanPut(u, step)
    requires !AfterPut(u, step).past.crowded
    ensures Solo(AfterPut(u, step))
  {
    match step
    case Confirm(w, now, ttl) => ConfirmKeeps(u.row, u.writers[w].index, u.writers[w].part, now, ttl);
    case _ =>
  }

  lemma MaintenanceSolo(u: Upload, step: MaintenanceStep)
    requires Shape(u) && Solo(u) && CanMaintain(u, step)
    ensures Solo(AfterMaintain(u, step))
  {
  }

  lemma CompletionSolo(u: Upload, step: CompletionStep)
    requires Shape(u) && Solo(u) && CanComplete(u, step)
    ensures Solo(AfterComplete(u, step))
  {
  }

  lemma ControlSolo(u: Upload, step: ControlStep)
    requires Shape(u) && Solo(u) && CanControl(u, step)
    ensures Solo(AfterControl(u, step))
  {
  }

  lemma PutTidy(u: Upload, step: PutStep)
    requires Shape(u) && Tidy(u) && CanPut(u, step)
    ensures Tidy(AfterPut(u, step))
  {
    match step
    case Confirm(w, now, ttl) => ConfirmKeeps(u.row, u.writers[w].index, u.writers[w].part, now, ttl);
    case _ =>
  }

  lemma ControlTidy(u: Upload, step: ControlStep)
    requires Shape(u) && Tidy(u) && CanControl(u, step)
    ensures Tidy(AfterControl(u, step))
  {
  }

  lemma CompletionTidy(u: Upload, step: CompletionStep)
    requires Shape(u) && Intact(u) && Tidy(u) && CanComplete(u, step)
    ensures Tidy(AfterComplete(u, step))
  {
  }

  lemma MaintenanceTidy(u: Upload, step: MaintenanceStep)
    requires Shape(u) && Intact(u) && Tidy(u) && CanMaintain(u, step)
    requires !step.Damage? && (step.FailPublication? ==> step.reset)
    ensures Tidy(AfterMaintain(u, step))
  {
    match step
    case FinalizeUpload(messageId) => FinalizeKeeps(u.row, PublishedCopy(u).value, messageId);
    case Reconcile(now, ttl) =>
      NothingMissing(u);
    case _ =>
  }

  lemma NothingMissing(u: Upload)
    requires Intact(u)
    ensures Terminal(u.row.status) || Missing(u) == {}
  {
    if !Terminal(u.row.status) {
      assert forall i :: i in u.row.parts ==> Stored(u.files, i, u.row.parts[i]);
    }
  }

  /** Every confirmed part of a full live upload is stored, as assemble will look for it. */
  lemma EverythingStored(u: Upload)
    requires Shape(u) && Intact(u) && !Terminal(u.row.status)
    requires Full(u.row.parts, u.row.meta.size, u.row.meta.chunk)
    ensures AllStored(u.files, u.row.parts, |u.row.parts|)
  {
    FullCount(u.row.parts, u.row.meta.size, u.row.meta.chunk);
    forall k | 0 <= k < |u.row.parts|
      ensures k in u.row.parts && Stored(u.files, k, u.row.parts[k]) && k in u.files.parts
    {
      assert k in u.row.parts;
    }
  }

  lemma PutHonest(u: Upload, step: PutStep)
    requires Shape(u) && Honest(u) && CanPut(u, step) && !AfterPut(u, step).past.foreign
    ensures Honest(AfterPut(u, step))
  {
    var v := AfterPut(u, step);
    PutShape(u, step);
    forall i | i in v.files.parts
      ensures HoldsSlice(v, i)
    {
      assert i in u.files.parts ==> HoldsSlice(u, i);
    }
  }

  /** No other step adds or changes a part file, damage aside. */
  lemma StillHonest(u: Upload, v: Upload)
    requires Honest(u) && v.row.meta == u.row.meta && v.past.source == u.past.source
    requires forall i :: i in v.files.parts ==> i in u.files.parts && v.files.parts[i] == u.files.parts[i]
    requires forall w :: w in v.writers ==> w in u.writers && v.writers[w] == u.writers[w]
    ensures Honest(v)
  {
    forall i | i in v.files.parts
      ensures HoldsSlice(v, i)
    {
      assert HoldsSlice(u, i);
    }
    forall w | w in v.writers
      ensures FromSource(v.writers[w].part, v.writers[w].index, v)
    {
      assert FromSource(u.writers[w].part, u.writers[w].index, u);
    }
  }

  // ---- Meaning of the digests ----

  lemma PutFaithful(u: Upload, step: PutStep)
    requires Shape(u) && Faithful(u) && CanPut(u, step)
    requires !AfterPut(u, step).past.foreign
    ensures Faithful(AfterPut(u, step))
  {
    PutShape(u, step);
    match step
    case Confirm(w, now, ttl) => ConfirmKeeps(u.row, u.writers[w].index, u.writers[w].part, now, ttl);
    case _ =>
  }

  lemma ControlFaithful(u: Upload, step: ControlStep)
    requires Shape(u) && Faithful(u) && CanControl(u, step)
    ensures Faithful(AfterControl(u, step))
  {
    ControlShape(u, step);
  }

  lemma AssemblyFaithful(u: Upload, step: CompletionStep)
    requires CollisionFree()
    requires Shape(u) && Faithful(u) && CanComplete(u, step)
    requires step.OpenTemp? || step.CopyPart? || step.CopyFault? || step.CopyDone? || step.Abort?
    ensures Faithful(AfterComplete(u, step))
  {
    match step
    case CopyPart => CopiedIsSource(u);
    case CopyDone => assert u.past.source[..|u.phase.copied|] == u.past.source;
    case _ =>
  }

  lemma HandlingFaithful(u: Upload, step: CompletionStep)
    requires Shape(u) && Faithful(u) && CanComplete(u, step)
    requires !(step.OpenTemp? || step.CopyPart? || step.CopyFault? || step.CopyDone? || step.Abort?)
    ensures Faithful(AfterComplete(u, step))
  {
    match step
    case Start(now, ttl) =>
    case MarkAssembled(now, ttl) =>
    case _ =>
  }

  lemma CompletionFaithful(u: Upload, step: CompletionStep)
    requires CollisionFree()
    requires Shape(u) && Faithful(u) && CanComplete(u, step)
    ensures Faithful(AfterComplete(u, step))
  {
    if step.OpenTemp? || step.CopyPart? || step.CopyFault? || step.CopyDone? || step.Abort? {
      AssemblyFaithful(u, step);
    } else {
      HandlingFaithful(u, step);
    }
  }

  /** The copied part has the digest of the source's slice, so the copy so far is the beginning of the source. */
  lemma CopiedIsSource(u: Upload)
    requires CollisionFree()
    requires Shape(u) && Faithful(u) && CanComplete(u, CopyPart)
    ensures var v := AfterComplete(u, CopyPart);
            |v.phase.copied| <= |u.past.source| && v.phase.copied == u.past.source[..|v.phase.copied|]
  {
    var next, chunk, source := u.phase.next, u.row.meta.chunk, u.past.source;
    assert FromSource(u.phase.plan[next], next, u);
    assert u.files.parts[next] == Slice(source, chunk, next);
    NextSlice(source, chunk, next);
  }

  lemma MaintenanceFaithful(u: Upload, step: MaintenanceStep)
    requires Shape(u) && Faithful(u) && CanMaintain(u, step)
    ensures Faithful(AfterMaintain(u, step))
  {
    MaintenanceShape(u, step);
    match step
    case FinalizeUpload(messageId) => FinalizeKeeps(u.row, PublishedCopy(u).value, messageId);
    case _ =>
  }

  // ---- The invariant ----

  lemma PutKeeps(u: Upload, step: PutStep)
    requires Inv(u) && CanPut(u, step)
    ensures Inv(AfterPut(u, step)) && SameUpload(u, AfterPut(u, step))
  {
    var v := AfterPut(u, step);
    PutShape(u, step);
    if !v.past.damaged { PutIntact(u, step); }
    if !v.past.damaged && !v.past.foreign { PutHonest(u, step); }
    if !v.past.damaged && !v.past.faulted { PutTidy(u, step); }
    if !v.past.crowded { PutSolo(u, step); }
    if CollisionFree() && !v.past.foreign { PutFaithful(u, step); }
  }

  lemma ControlStepKeeps(u: Upload, step: ControlStep)
    requires Inv(u) && CanControl(u, step)
    ensures Inv(AfterControl(u, step)) && SameUpload(u, AfterControl(u, step))
  {
    var v := AfterControl(u, step);
    ControlShape(u, step);
    if !v.past.damaged { ControlIntact(u, step); }
    if !v.past.damaged && !v.past.foreign { StillHonest(u, v); }
    if !v.past.damaged && !v.past.faulted { ControlTidy(u, step); }
    if !v.past.crowded { ControlSolo(u, step); }
    if CollisionFree() && !v.past.foreign { ControlFaithful(u, step); }
  }

  lemma CompletionKeeps(u: Upload, step: CompletionStep)
    requires Inv(u) && CanComplete(u, step)
    ensures Inv(AfterComplete(u, step)) && SameUpload(u, AfterComplete(u, step))
  {
    var v := AfterComplete(u, step);
    CompletionShape(u, step);
    if !v.past.damaged { CompletionIntact(u, step); }
    if !v.past.damaged && !v.past.foreign { StillHonest(u, v); }
    if !v.past.damaged && !v.past.faulted { CompletionTidy(u, step); }
    if !v.past.crowded { CompletionSolo(u, step); }
    if CollisionFree() && !v.past.foreign { CompletionFaithful(u, step); }
  }

  lemma MaintenanceKeeps(u: Upload, step: MaintenanceStep)
    requires Inv(u) && CanMaintain(u, step)
    ensures Inv(AfterMaintain(u, step)) && SameUpload(u, AfterMaintain(u, step))
  {
    var v := AfterMaintain(u, step);
    MaintenanceShape(u, step);
    if !v.past.damaged { MaintenanceIntact(u, step); }
    if !v.past.damaged && !v.past.foreign { StillHonest(u, v); }
    if !v.past.damaged && !v.past.faulted { MaintenanceTidy(u, step); }
    if !v.past.crowded { MaintenanceSolo(u, step); }
    if CollisionFree() && !v.past.foreign { MaintenanceFaithful(u, step); }
  }

  lemma StepKeeps(u: Upload, step: Step)
    requires Inv(u) && Can(u, step)
    ensures Inv(After(u, step)) && SameUpload(u, After(u, step))
  {
    match step
    case Put(s) => PutKeeps(u, s);
    case Control(s) => ControlStepKeeps(u, s);
    case Completion(s) => CompletionKeeps(u, s);
    case Maintenance(s) => MaintenanceKeeps(u, s);
  }

  // ---- Runs ----

  /** A trail is the list of durable states that one execution passes through, each one step after the last. */
  ghost predicate Next(u: Upload, v: Upload) {
    exists step :: Can(u, step) && v == After(u, step)
  }

  ghost predicate Trail(states: seq<Upload>) {
    && |states| > 0
    && forall j, k :: 0 <= j < k < |states| && k == j + 1 ==> Next(states[j], states[k])
  }

  /**
   * Crash safety: every state on a trail from a valid upload is valid, whatever steps of whatever requests,
   * recoveries, crashes and outside damage lead to it; in particular the state at which a crash stops it.
   */
  lemma {:induction false} TrailKeeps(states: seq<Upload>, k: nat)
    requires Trail(states) && k < |states|
    requires Inv(states[0])
    ensures Inv(states[k]) && SameUpload(states[0], states[k])
  {
    if k > 0 {
      TrailKeeps(states, k - 1);
      assert Next(states[k - 1], states[k]);
      var step :| Can(states[k - 1], step) && states[k] == After(states[k - 1], step);
      StepKeeps(states[k - 1], step);
    }
  }

  /** Terminal statuses are absorbing over any trail; a message stays with the upload that completed it, and only there. */
  lemma TerminalForever(states: seq<Upload>, k: nat)
    requires Trail(states) && k < |states|
    requires Inv(states[0]) && Terminal(states[0].row.status)
    ensures states[k].row.status == states[0].row.status
    ensures states[k].row.messageId == states[0].row.messageId
    ensures states[k].row.messageId.Some? <==> states[0].row.status == Complete
  {
    TrailKeeps(states, k);
  }

  /**
   * The step that completes an upload is taken from verifying, once; on undamaged storage the final file then has
   * the recorded size and digest, and for a client that announced slices of its file it is that file.
   */
  lemma CompletionIsExact(u: Upload, messageId: Id)
    requires Inv(u) && CanMaintain(u, FinalizeUpload(messageId))
    ensures u.row.status == Verifying && u.row.publication == FilePublished
    ensures var v := AfterMaintain(u, FinalizeUpload(messageId));
            v.row.status == Complete && v.row.messageId == Some(messageId) && v.row.fileSha == u.row.fileSha
    ensures !u.past.damaged ==> VerifiedFinal(u)
    ensures CollisionFree() && !u.past.foreign ==> u.row.fileSha == Some(Sha256(u.past.source))
    ensures CollisionFree() && !u.past.foreign && !u.past.damaged ==> u.files.final == Some(u.past.source)
  {
    FinalizeKeeps(u.row, PublishedCopy(u).value, messageId);
  }

  lemma PutNeverRewrites(u: Upload, step: PutStep, index: int)
    requires Shape(u) && CanPut(u, step)
    ensures var v := AfterPut(u, step);
            && (index in u.row.parts && index in v.row.parts ==> v.row.parts[index] == u.row.parts[index])
            && (index in u.files.parts && index in v.files.parts ==> v.files.parts[index] == u.files.parts[index])
  {
  }

  lemma CompletionNeverRewrites(u: Upload, step: CompletionStep, index: int)
    requires CanComplete(u, step)
    ensures var v := AfterComplete(u, step);
            && (index in u.row.parts && index in v.row.parts ==> v.row.parts[index] == u.row.parts[index])
            && (index in u.files.parts && index in v.files.parts ==> v.files.parts[index] == u.files.parts[index])
  {
  }

  lemma MaintenanceNeverRewrites(u: Upload, step: MaintenanceStep, index: int)
    requires CanMaintain(u, step)
    ensures var v := AfterMaintain(u, step);
            && (index in u.row.parts && index in v.row.parts ==> v.row.parts[index] == u.row.parts[index])
            && (!step.Damage? && index in u.files.parts && index in v.files.parts ==> v.files.parts[index] == u.files.parts[index])
  {
  }

  /** Over any step a confirmed part row is kept or removed, never rewritten; so is a part file, damage aside. */
  lemma PartsAreNeverRewritten(u: Upload, step: Step, index: int)
    requires Inv(u) && Can(u, step)
    ensures index in u.row.parts && index in After(u, step).row.parts ==> After(u, step).row.parts[index] == u.row.parts[index]
    ensures !(step.Maintenance? && step.maintenance.Damage?) && index in u.files.parts && index in After(u, step).files.parts
            ==> After(u, step).files.parts[index] == u.files.parts[index]
  {
    match step
    case Put(s) => PutNeverRewrites(u, s, index);
    case Control(s) =>
    case Completion(s) => CompletionNeverRewrites(u, s, index);
    case Maintenance(s) => MaintenanceNeverRewrites(u, s, index);
  }

  /** A put whose part is already confirmed with the same digest is answered from the row and changes nothing. */
  lemma ReplayChangesNothing(u: Upload, index: int, part: Part, now: int, ttl: int)
    requires Inv(u) && index in u.row.parts && u.row.parts[index] == part
    ensures BeginPart(u.row, index, part) == Ok(Replay)
    ensures ConfirmPart(u.row, index, part, now, ttl) == Ok(u.row)
    ensures forall other: Part :: other != part ==> BeginPart(u.row, index, other) == Err(Conflict)
  {
    SlotIsInside(u.row.meta.size, u.row.meta.chunk, index);
  }

  /** The structural error branches of assemble and complete cannot be reached: a started plan always passes the checks. */
  lemma StartedPlanIsStructured(u: Upload)
    requires Inv(u) && (u.phase.Opening? || u.phase.Copying?)
    ensures Structured(u.phase.plan, u.row.meta.size)
    ensures u.phase.Copying? ==> u.phase.next <= |u.phase.plan| && (u.phase.next == |u.phase.plan| ==> |u.phase.copied| == u.row.meta.size)
  {
    GridTheorem(u.phase.plan, u.row.meta.size, u.row.meta.chunk);
    StructureCannotFail(u.phase.plan, u.row.meta.size, u.row.meta.chunk);
  }
}
