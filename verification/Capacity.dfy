/** The space ledger: what admission commits, what uploads use, and what is always left free. */
module Capacity {
  import opened Common
  import opened Sums
  import opened Grid
  import opened UploadRows
  import opened UploadTables
  import opened ChunkFiles
  import opened Publication
  import opened PublicationSafety
  import opened World
  import opened UploadService

  // ---- One upload ----

  ghost predicate CleanUpload(u: Upload) {
    !u.past.damaged && !u.past.faulted && !u.past.crowded
  }

  /** What the ledger charges for an upload: twice its size while it is active, then what is still on disk. */
  ghost function Load(u: Upload): int {
    if Active(u.row.status) then 2 * u.row.meta.size else Usage(u)
  }

  lemma PartsFit(u: Upload)
    requires Shape(u) && Intact(u)
    ensures Sum(u.files.parts, Length) <= u.row.meta.size
  {
    var size, chunk := u.row.meta.size, u.row.meta.chunk;
    var slots := map i | i in u.files.parts :: Part(i * chunk, SlotEnd(size, chunk, i), SlotSize(size, chunk, i), "");
    forall i | i in u.files.parts
      ensures OnSlot(slots[i], size, chunk, i) && |u.files.parts[i]| == slots[i].size
    {
      assert IsSlotSized(u, i);
    }
    assert slots.Keys == u.files.parts.Keys;
    GridTheorem(slots, size, chunk);
    Compare(u.files.parts, Length, slots, PartSize);
  }

  lemma ConfirmedIsStored(u: Upload)
    requires Shape(u) && Intact(u) && Active(u.row.status)
    ensures u.row.confirmed <= Sum(u.files.parts, Length)
  {
    forall i | i in u.row.parts
      ensures i in u.files.parts && PartSize(u.row.parts[i]) <= Length(u.files.parts[i])
    {
      assert Stored(u.files, i, u.row.parts[i]);
    }
    Compare(u.row.parts, PartSize, u.files.parts, Length);
  }

  /** Bodies of different parts together fit the slots of those parts. */
  lemma {:induction false} ReceivedSlots(writers: map<nat, Writer>, size: int, chunk: int) returns (slots: map<int, Part>)
    requires forall w :: w in writers ==>
               OnSlot(writers[w].part, size, chunk, writers[w].index) && |writers[w].received| <= writers[w].part.size
    requires forall w, x :: w in writers && x in writers && w != x ==> writers[w].index != writers[x].index
    ensures GridRows(slots, size, chunk)
    ensures forall i :: i in slots ==> exists w :: w in writers && writers[w].index == i
    ensures Sum(writers, Received) <= Sum(slots, PartSize)
    decreases |writers|
  {
    if writers == map[] {
      slots := map[];
    } else {
      var w :| w in writers;
      slots := ReceivedSlots(writers - {w}, size, chunk);
      Without(writers, Received, w);
      Update(slots, PartSize, writers[w].index, writers[w].part);
      slots := slots[writers[w].index := writers[w].part];
    }
  }

  lemma ReceivedFits(u: Upload)
    requires Shape(u) && Solo(u)
    ensures 0 <= Sum(u.writers, Received) <= u.row.meta.size
  {
    NonNegative(u.writers, Received);
    var slots := ReceivedSlots(u.writers, u.row.meta.size, u.row.meta.chunk);
    GridTheorem(slots, u.row.meta.size, u.row.meta.chunk);
  }

  lemma {:induction false} NothingReceived(writers: map<nat, Writer>)
    requires forall w :: w in writers ==> writers[w].received == []
    ensures Sum(writers, Received) == 0
    decreases |writers|
  {
    if writers != map[] {
      var w :| w in writers;
      Without(writers, Received, w);
      NothingReceived(writers - {w});
    }
  }

  /** Once every part is confirmed no body is being received. */
  lemma FullReceivesNothing(u: Upload)
    requires Shape(u) && Solo(u) && Full(u.row.parts, u.row.meta.size, u.row.meta.chunk)
    ensures forall w :: w in u.writers ==> u.writers[w].linked
    ensures Sum(u.writers, Received) == 0
  {
    forall w | w in u.writers
      ensures u.writers[w].linked && u.writers[w].received == []
    {
      assert WriterFits(u, u.writers[w]);
      InGrid(u.row.meta.size, u.row.meta.chunk, u.writers[w].index);
    }
    NothingReceived(u.writers);
  }

  /** The commitment that admission counts and the bytes on disk together cover twice the size of an active upload. */
  lemma CommitmentCovers(u: Upload)
    requires Shape(u) && Intact(u)
    ensures Load(u) <= Commitment(u.row) + Usage(u)
  {
    NonNegative(u.files.parts, Length);
    NonNegative(u.writers, Received);
    if Active(u.row.status) {
      ConfirmedIsStored(u);
      if Projected(u.row.publication) {
        GridTheorem(u.row.parts, u.row.meta.size, u.row.meta.chunk);
      }
    }
  }

  /** An active upload never uses more than twice its size. */
  lemma ActiveFits(u: Upload)
    requires Inv(u) && CleanUpload(u) && Active(u.row.status)
    ensures Usage(u) <= 2 * u.row.meta.size
  {
    PartsFit(u);
    ReceivedFits(u);
    if u.row.status == Verifying {
      FullReceivesNothing(u);
    }
  }

  lemma LoadCoversUsage(u: Upload)
    requires Inv(u) && CleanUpload(u)
    ensures 0 <= Usage(u) <= Load(u)
  {
    NonNegative(u.files.parts, Length);
    NonNegative(u.writers, Received);
    if Active(u.row.status) {
      ActiveFits(u);
    }
  }

  /** The step that ends an upload moves no bytes. */
  lemma EndingMovesNothing(u: Upload, step: Step)
    requires ValidRow(u.row) && Can(u, step) && Active(u.row.status) && Terminal(After(u, step).row.status)
    ensures After(u, step).files == u.files && After(u, step).writers == u.writers
  {
    match step
    case Put(s) =>
    case Control(s) =>
    case Completion(s) =>
    case Maintenance(s) =>
  }

  lemma LoadStep(u: Upload, step: Step)
    requires Inv(u) && Can(u, step) && CleanUpload(After(u, step))
    ensures Load(After(u, step)) <= Load(u) + Growth(u, After(u, step))
    ensures CleanUpload(u)
  {
    StepKeeps(u, step);
    if Active(u.row.status) && Terminal(After(u, step).row.status) {
      EndingMovesNothing(u, step);
      ActiveFits(u);
    }
  }

  // ---- When bytes are written for an upload that has ended ----

  /** A request that is still in flight writes a body, or copies a part into final.uploading. */
  ghost predicate Writes(u: Upload, step: Step) {
    || (step.Put? && step.put.Receive? && |step.put.piece| > 0)
    || (step.Completion? && step.completion.CopyPart? && u.files.temp.Some?)
  }

  lemma PutUsage(u: Upload, step: PutStep)
    requires Shape(u) && CanPut(u, step)
    ensures Usage(AfterPut(u, step)) <= Usage(u) + if step.Receive? then |step.piece| else 0
    ensures step.Receive? ==> Usage(AfterPut(u, step)) == Usage(u) + |step.piece|
  {
    match step
    case Admit(w, index, part) => Update(u.writers, Received, w, Writer(index, part, [], false));
    case Receive(w, piece) => Update(u.writers, Received, w, u.writers[w].(received := u.writers[w].received + piece));
    case Link(w) =>
      Update(u.writers, Received, w, u.writers[w].(received := [], linked := true));
      Update(u.files.parts, Length, u.writers[w].index, u.writers[w].received);
    case Confirm(w, now, ttl) =>
    case DiscardLate(w) =>
      if u.writers[w].index in u.files.parts {
        Without(u.files.parts, Length, u.writers[w].index);
      } else {
        assert u.files.parts - {u.writers[w].index} == u.files.parts;
      }
    case Leave(w) => Without(u.writers, Received, w);
  }

  lemma ControlUsage(u: Upload, step: ControlStep)
    requires CanControl(u, step)
    ensures Usage(AfterControl(u, step)) <= Usage(u)
  {
    if step.Sweep? {
      Compare(AfterControl(u, step).files.parts, Length, u.files.parts, Length);
    }
  }

  lemma CompletionUsage(u: Upload, step: CompletionStep)
    requires CanComplete(u, step)
    ensures step.CopyPart? && u.files.temp.Some? ==>
              Usage(AfterComplete(u, step)) == Usage(u) + u.phase.plan[u.phase.next].size
    ensures !(step.CopyPart? && u.files.temp.Some?) ==> Usage(AfterComplete(u, step)) <= Usage(u)
  {
    if step.DropBroken? {
      if u.phase.index in u.files.parts {
        Without(u.files.parts, Length, u.phase.index);
      } else {
        assert u.files.parts - {u.phase.index} == u.files.parts;
      }
    }
  }

  lemma MaintenanceUsage(u: Upload, step: MaintenanceStep)
    requires CanMaintain(u, step) && !step.Damage?
    ensures Usage(AfterMaintain(u, step)) <= Usage(u)
  {
    NonNegative(u.writers, Received);
  }

  /**
   * Exactly when an upload that has ended still grows: it was cancelled, and a request that was in flight then
   * goes on writing. Uploads that completed or expired never do.
   */
  lemma OverdraftExactly(u: Upload, step: Step)
    requires Inv(u) && Can(u, step) && CleanUpload(After(u, step))
    ensures Growth(u, After(u, step)) > 0 <==> u.row.status == Cancelled && Writes(u, step)
  {
    StepKeeps(u, step);
    match step
    case Put(s) =>
      PutUsage(u, s);
      if s.Receive? && u.row.status == Complete {
        FullReceivesNothing(u);
      }
    case Control(s) => ControlUsage(u, s);
    case Completion(s) =>
      CompletionUsage(u, s);
      if s.CopyPart? {
        assert OnSlot(u.phase.plan[u.phase.next], u.row.meta.size, u.row.meta.chunk, u.phase.next);
        SlotIsInside(u.row.meta.size, u.row.meta.chunk, u.phase.next);
      }
    case Maintenance(s) => MaintenanceUsage(u, s);
  }

  // ---- All uploads ----

  ghost predicate Clean(w: World) {
    !w.stale && forall id :: id in w.uploads ==> CleanUpload(w.uploads[id])
  }

  /** The bytes that a cancelled upload still has on disk. */
  ghost function Unswept(u: Upload): int {
    if u.row.status == Cancelled then Usage(u) else 0
  }

  /** The ledger: what uploads may use fits beside the reserve but for the overdraft, and cancelled uploads hold that. */
  ghost predicate Balanced(limits: Limits, w: World) {
    && Sum(w.uploads, Load) <= Max(0, limits.total - limits.reserve) + w.overdraft
    && w.overdraft <= Sum(w.uploads, Unswept)
    && (w.uploads != map[] ==> limits.reserve <= limits.total)
  }

  lemma {:induction false} AdmissionSeesAll(uploads: map<Id, Upload>)
    requires forall id :: id in uploads ==> Load(uploads[id]) <= Commitment(uploads[id].row) + Usage(uploads[id])
    ensures Sum(uploads, Load) <= Sum(Rows(uploads), Commitment) + Sum(uploads, Usage)
    decreases |uploads|
  {
    if uploads == map[] {
      assert Rows(uploads) == map[];
    } else {
      var id :| id in uploads;
      Without(uploads, Load, id);
      Without(uploads, Usage, id);
      Without(Rows(uploads), Commitment, id);
      assert Rows(uploads) - {id} == Rows(uploads - {id});
      AdmissionSeesAll(uploads - {id});
    }
  }

  lemma CleanBefore(w: World, id: Id, u: Upload)
    requires id !in w.uploads && Clean(w.(uploads := w.uploads[id := u]))
    ensures Clean(w)
  {
    var x := w.(uploads := w.uploads[id := u]);
    forall other | other in w.uploads
      ensures CleanUpload(w.uploads[other])
    {
      assert other in x.uploads && CleanUpload(x.uploads[other]);
    }
  }

  lemma LoadsArePositive(w: World)
    requires UploadsValid(w) && Clean(w)
    ensures 0 <= Sum(w.uploads, Load)
    ensures forall id :: id in w.uploads ==> Load(w.uploads[id]) <= Sum(w.uploads, Load)
  {
    forall id | id in w.uploads
      ensures Load(w.uploads[id]) >= 0
    {
      assert CleanUpload(w.uploads[id]);
      LoadCoversUsage(w.uploads[id]);
    }
    NonNegative(w.uploads, Load);
  }

  lemma AdmissionCharges(w: World)
    requires UploadsValid(w) && Clean(w)
    ensures 0 <= Sum(w.uploads, Load) <= Sum(Rows(w.uploads), Commitment) + Used(w.uploads)
  {
    forall id | id in w.uploads
      ensures Load(w.uploads[id]) <= Commitment(w.uploads[id].row) + Usage(w.uploads[id])
    {
      assert CleanUpload(w.uploads[id]);
      CommitmentCovers(w.uploads[id]);
    }
    AdmissionSeesAll(w.uploads);
    LoadsArePositive(w);
  }

  lemma AdmissionBalances(limits: Limits, w: World, x: World, id: Id, u: Upload)
    requires UploadsValid(w) && Clean(w) && id !in w.uploads
    requires x.uploads == w.uploads[id := u] && x.overdraft == 0 && Load(u) == 2 * u.row.meta.size > 0
    requires Sum(Rows(w.uploads), Commitment) + 2 * u.row.meta.size <= Free(limits, w) - limits.reserve
    ensures Balanced(limits, x)
  {
    AdmissionCharges(w);
    Update(w.uploads, Load, id, u);
    UnsweptIsPositive(x.uploads);
  }

  lemma CreateBalances(limits: Limits, w: World, step: WorldStep)
    requires WorldInv(w) && step.Create? && CanStep(limits, w, step) && Clean(AfterStep(limits, w, step))
    ensures Clean(w)
    ensures Balanced(limits, AfterStep(limits, w, step))
  {
    var x := AfterStep(limits, w, step);
    var u := x.uploads[step.id];
    assert x.uploads == w.uploads[step.id := u];
    assert Clean(w.(uploads := w.uploads[step.id := u]));
    CleanBefore(w, step.id, u);
    AdmissionBalances(limits, w, x, step.id, u);
  }

  lemma CleanUnmoved(w: World, x: World, id: Id)
    requires id in w.uploads && id in x.uploads && x.uploads == w.uploads[id := x.uploads[id]] && x.stale == w.stale
    requires Clean(x) && CleanUpload(w.uploads[id])
    ensures Clean(w)
  {
    forall other | other in w.uploads
      ensures CleanUpload(w.uploads[other])
    {
      assert other != id ==> CleanUpload(x.uploads[other]);
    }
  }

  lemma MovedUploadIsClean(w: World, x: World, id: Id, step: Step)
    requires id in w.uploads && Inv(w.uploads[id]) && Can(w.uploads[id], step)
    requires x.uploads == w.uploads[id := After(w.uploads[id], step)] && x.stale == w.stale && Clean(x)
    ensures Clean(w)
    ensures Load(x.uploads[id]) <= Load(w.uploads[id]) + Growth(w.uploads[id], x.uploads[id])
  {
    assert CleanUpload(x.uploads[id]);
    LoadStep(w.uploads[id], step);
    CleanUnmoved(w, x, id);
  }

  lemma UsageIsPositive(u: Upload)
    ensures Usage(u) >= 0
  {
    NonNegative(u.files.parts, Length);
    NonNegative(u.writers, Received);
  }

  lemma UnsweptIsPositive(uploads: map<Id, Upload>)
    ensures Sum(uploads, Unswept) >= 0
  {
    forall id | id in uploads
      ensures Unswept(uploads[id]) >= 0
    {
      UsageIsPositive(uploads[id]);
    }
    NonNegative(uploads, Unswept);
  }

  /** Only cancelled uploads grow once they have ended, and whatever they grow by is theirs to be swept. */
  lemma GrowthIsUnswept(u: Upload, step: Step)
    requires Inv(u) && Can(u, step) && CleanUpload(After(u, step))
    ensures Growth(u, After(u, step)) <= Unswept(After(u, step)) - Unswept(u)
  {
    StepKeeps(u, step);
    OverdraftExactly(u, step);
    UsageIsPositive(After(u, step));
  }

  lemma OverdraftMoved(w: World, x: World, id: Id, step: Step)
    requires id in w.uploads && Inv(w.uploads[id]) && Can(w.uploads[id], step)
    requires x.uploads == w.uploads[id := After(w.uploads[id], step)] && CleanUpload(x.uploads[id])
    requires x.overdraft == Max(0, w.overdraft + Growth(w.uploads[id], x.uploads[id]))
    requires w.overdraft <= Sum(w.uploads, Unswept)
    ensures x.overdraft <= Sum(x.uploads, Unswept)
  {
    GrowthIsUnswept(w.uploads[id], step);
    Update(w.uploads, Unswept, id, x.uploads[id]);
    UnsweptIsPositive(x.uploads);
  }

  lemma MovedUploadBalances(limits: Limits, w: World, x: World, id: Id, step: Step)
    requires id in w.uploads && Inv(w.uploads[id]) && Can(w.uploads[id], step)
    requires x.uploads == w.uploads[id := After(w.uploads[id], step)] && x.stale == w.stale && Clean(x)
    requires x.overdraft == Max(0, w.overdraft + Growth(w.uploads[id], x.uploads[id]))
    requires Clean(w) ==> Balanced(limits, w)
    ensures Clean(w) && Balanced(limits, x)
  {
    MovedUploadIsClean(w, x, id, step);
    Update(w.uploads, Load, id, x.uploads[id]);
    assert CleanUpload(x.uploads[id]);
    OverdraftMoved(w, x, id, step);
  }

  lemma LocalBalances(limits: Limits, w: World, id: Id, step: Step)
    requires id in w.uploads && Inv(w.uploads[id]) && Can(w.uploads[id], step) && Clean(AfterLocal(w, id, step))
    requires Clean(w) ==> Balanced(limits, w)
    ensures Clean(w) && Balanced(limits, AfterLocal(w, id, step))
  {
    var x := AfterLocal(w, id, step);
    assert x.uploads == w.uploads[id := After(w.uploads[id], step)] && x.stale == w.stale;
    MovedUploadBalances(limits, w, x, id, step);
  }

  lemma SharedMovesNoUpload(limits: Limits, w: World, step: WorldStep)
    requires CanStep(limits, w, step) && !step.Create? && !step.Local?
    ensures var x := AfterStep(limits, w, step);
            x.uploads == w.uploads && x.stale == w.stale && x.overdraft == w.overdraft
  {
  }

  lemma StepBalances(limits: Limits, w: World, step: WorldStep, x: World)
    requires WorldInv(w) && CanStep(limits, w, step) && x == AfterStep(limits, w, step) && Clean(x)
    requires Clean(w) ==> Balanced(limits, w)
    ensures Clean(w) && Balanced(limits, x)
  {
    if step.Create? {
      CreateBalances(limits, w, step);
    } else if step.Local? {
      LocalBalances(limits, w, step.id, step.step);
    } else {
      SharedMovesNoUpload(limits, w, step);
      SharedBalances(limits, w, x);
    }
  }

  lemma SharedBalances(limits: Limits, w: World, x: World)
    requires x.uploads == w.uploads && x.stale == w.stale && x.overdraft == w.overdraft
    ensures Clean(x) <==> Clean(w)
    ensures Balanced(limits, x) <==> Balanced(limits, w)
  {
  }

  lemma NextBalances(limits: Limits, w: World, x: World)
    requires WorldInv(w) && Advances(limits, w, x) && (Clean(w) ==> Balanced(limits, w))
    ensures Clean(x) ==> Balanced(limits, x)
  {
    var step :| CanStep(limits, w, step) && x == AfterStep(limits, w, step);
    if Clean(x) {
      StepBalances(limits, w, step, x);
    }
  }

  lemma InitiallyBalanced(limits: Limits, w: World)
    requires InitialWorld(w)
    ensures Clean(w) ==> Balanced(limits, w)
  {
  }

  lemma RunStepBalances(limits: Limits, states: seq<World>, k: nat)
    requires Run(limits, states) && 0 < k < |states|
    requires Clean(states[k - 1]) ==> Balanced(limits, states[k - 1])
    ensures Clean(states[k]) ==> Balanced(limits, states[k])
  {
    RunKeeps(limits, states, k - 1);
    assert RunStep(limits, states, k);
    NextBalances(limits, states[k - 1], states[k]);
  }

  lemma {:induction false} RunBalances(limits: Limits, states: seq<World>, k: nat)
    requires Run(limits, states) && k < |states|
    ensures Clean(states[k]) ==> Balanced(limits, states[k])
  {
    if k == 0 {
      InitiallyBalanced(limits, states[0]);
    } else {
      RunBalances(limits, states, k - 1);
      RunStepBalances(limits, states, k);
    }
  }

  lemma UsedWithinLoad(w: World)
    requires UploadsValid(w) && Clean(w)
    ensures Used(w.uploads) <= Sum(w.uploads, Load)
  {
    forall id | id in w.uploads
      ensures Usage(w.uploads[id]) <= Load(w.uploads[id])
    {
      assert CleanUpload(w.uploads[id]);
      LoadCoversUsage(w.uploads[id]);
    }
    Compare(w.uploads, Usage, w.uploads, Load);
  }

  /**
   * Capacity: with admission decided on a current measurement, one request per part and no damage, free space
   * falls below the reserve by no more than what ended uploads have grown by since the last admission and not given
   * back, and cancelled uploads hold at least that much on disk.
   */
  lemma ReserveIsKept(limits: Limits, states: seq<World>, k: nat)
    requires Run(limits, states) && k < |states| && Clean(states[k])
    ensures Free(limits, states[k]) >= Min(limits.reserve, limits.total) - states[k].overdraft
    ensures states[k].overdraft <= Sum(states[k].uploads, Unswept)
  {
    RunKeeps(limits, states, k);
    RunBalances(limits, states, k);
    UsedWithinLoad(states[k]);
  }

  lemma OthersWithinLoad(w: World, id: Id)
    requires UploadsValid(w) && Clean(w) && id in w.uploads
    ensures Used(w.uploads) - Usage(w.uploads[id]) <= Sum(w.uploads, Load) - Load(w.uploads[id])
  {
    Without(w.uploads, Usage, id);
    Without(w.uploads, Load, id);
    var x := w.(uploads := w.uploads - {id});
    forall other | other in x.uploads
      ensures CleanUpload(x.uploads[other])
    {
      assert CleanUpload(w.uploads[other]);
    }
    UsedWithinLoad(x);
  }

  /** An upload that complete may start on, after its interrupted assembly, if any, is discarded. */
  ghost predicate ReadyToAssemble(u: Upload) {
    || (u.row.status == Uploading && u.row.confirmed == u.row.meta.size)
    || (u.row.status == Verifying && u.row.publication == Assembling)
  }

  /**
   * The room that complete finds for an admitted upload once its stale copy is dropped: the whole file beside the
   * reserve, less the overdraft. Without one its capacity check never refuses.
   */
  lemma CompletionFits(limits: Limits, states: seq<World>, k: nat, id: Id)
    requires Run(limits, states) && k < |states| && Clean(states[k])
    requires id in states[k].uploads && ReadyToAssemble(states[k].uploads[id])
    ensures var u := states[k].uploads[id];
            Free(limits, states[k]) + CopyLength(u.files.temp) >= u.row.meta.size + limits.reserve - states[k].overdraft
  {
    var w := states[k];
    var u := w.uploads[id];
    RunKeeps(limits, states, k);
    RunBalances(limits, states, k);
    OthersWithinLoad(w, id);
    assert CleanUpload(u);
    PartsFit(u);
    GridTheorem(u.row.parts, u.row.meta.size, u.row.meta.chunk);
    FullReceivesNothing(u);
  }

  /** From admission to message: on such a run a fully confirmed upload completes on its first complete request. */
  lemma AdmittedUploadCompletes(limits: Limits, states: seq<World>, k: nat, id: Id)
    requires Run(limits, states) && k < |states| && Clean(states[k]) && states[k].overdraft == 0
    requires id in states[k].uploads
    requires states[k].uploads[id].row.status == Uploading
    requires states[k].uploads[id].row.confirmed == states[k].uploads[id].row.meta.size
    ensures Completable(states[k].uploads[id], Free(limits, states[k]), limits.reserve, Io(true, true, true), true)
  {
    RunKeeps(limits, states, k);
    CompletionFits(limits, states, k, id);
    assert CleanUpload(states[k].uploads[id]);
    FullUploadCompletes(states[k].uploads[id], Free(limits, states[k]), limits.reserve);
  }

  /** No overdraft can be outstanding while no cancelled upload has anything on disk. */
  lemma {:induction false} SweptOwesNothing(uploads: map<Id, Upload>)
    requires forall id :: id in uploads && uploads[id].row.status == Cancelled ==> Usage(uploads[id]) == 0
    ensures Sum(uploads, Unswept) == 0
    decreases |uploads|
  {
    if uploads != map[] {
      var id :| id in uploads;
      Without(uploads, Unswept, id);
      SweptOwesNothing(uploads - {id});
    }
  }

  /** In terms of the disk alone: whatever was written late and swept again, it does not stand in the way. */
  lemma SweptServerCompletes(limits: Limits, states: seq<World>, k: nat, id: Id)
    requires Run(limits, states) && k < |states| && Clean(states[k])
    requires forall other :: other in states[k].uploads && states[k].uploads[other].row.status == Cancelled ==>
               Usage(states[k].uploads[other]) == 0
    requires id in states[k].uploads
    requires states[k].uploads[id].row.status == Uploading
    requires states[k].uploads[id].row.confirmed == states[k].uploads[id].row.meta.size
    ensures Free(limits, states[k]) >= Min(limits.reserve, limits.total)
    ensures Completable(states[k].uploads[id], Free(limits, states[k]), limits.reserve, Io(true, true, true), true)
  {
    SweptOwesNothing(states[k].uploads);
    ReserveIsKept(limits, states, k);
    AdmittedUploadCompletes(limits, states, k, id);
  }

  // ---- Who is admitted ----

  /** No request is in flight, and the disk holds the confirmed parts and, while it is not verified, no copy. */
  ghost predicate AtRest(u: Upload) {
    && u.writers == map[]
    && (u.row.status in {Queued, Uploading, Paused, Verifying, Failed} && u.row.publication in {Unpublished, Assembling} ==>
          u.files.parts.Keys == u.row.parts.Keys && u.files.temp.None? && u.files.final.None?)
  }

  /** What an upload uses and may still use: twice its size until its copy is verified, then what it has on disk. */
  ghost function MayUse(u: Upload): int {
    if u.row.status in {Queued, Uploading, Paused, Verifying, Failed} && u.row.publication in {Unpublished, Assembling}
    then 2 * u.row.meta.size
    else Usage(u)
  }

  lemma RestUsesItsParts(u: Upload)
    requires Shape(u) && Intact(u) && Active(u.row.status) && AtRest(u) && u.row.publication in {Unpublished, Assembling}
    ensures Usage(u) == u.row.confirmed
  {
    forall i | i in u.row.parts
      ensures i in u.files.parts && PartSize(u.row.parts[i]) == Length(u.files.parts[i])
    {
      assert Stored(u.files, i, u.row.parts[i]);
    }
    Compare(u.row.parts, PartSize, u.files.parts, Length);
    Compare(u.files.parts, Length, u.row.parts, PartSize);
    NothingReceived(u.writers);
  }

  /** What admission counts for an upload beside its bytes on disk is exactly what it may still use. */
  lemma CommitmentExactly(u: Upload)
    requires Shape(u) && Intact(u) && AtRest(u)
    ensures Commitment(u.row) + Usage(u) == MayUse(u)
  {
    if Active(u.row.status) && u.row.publication in {Unpublished, Assembling} {
      RestUsesItsParts(u);
    }
  }

  lemma {:induction false} CommitmentsExactly(uploads: map<Id, Upload>)
    requires forall id :: id in uploads ==> Commitment(uploads[id].row) + Usage(uploads[id]) == MayUse(uploads[id])
    ensures Sum(Rows(uploads), Commitment) + Sum(uploads, Usage) == Sum(uploads, MayUse)
    decreases |uploads|
  {
    if uploads == map[] {
      assert Rows(uploads) == map[];
    } else {
      var id :| id in uploads;
      Without(uploads, MayUse, id);
      Without(uploads, Usage, id);
      Without(Rows(uploads), Commitment, id);
      assert Rows(uploads) - {id} == Rows(uploads - {id});
      CommitmentsExactly(uploads - {id});
    }
  }

  ghost function ActiveIds(uploads: map<Id, Upload>): set<Id> {
    set id | id in uploads && uploads[id].row.status in {Queued, Uploading, Paused, Verifying, Failed}
  }

  lemma {:induction false} ActiveCount(uploads: map<Id, Upload>)
    ensures Sum(Rows(uploads), ActiveOne) == |ActiveIds(uploads)|
    decreases |uploads|
  {
    if uploads == map[] {
      assert Rows(uploads) == map[];
    } else {
      var id :| id in uploads;
      Without(Rows(uploads), ActiveOne, id);
      assert Rows(uploads) - {id} == Rows(uploads - {id});
      assert ActiveIds(uploads - {id}) == ActiveIds(uploads) - {id};
      ActiveCount(uploads - {id});
    }
  }

  /**
   * Admission on a server at rest with undamaged storage, as the disk sees it: a request id that has a message or a
   * reservation is a conflict; then a slot must be free; then what all uploads may use and twice the new size must fit
   * beside the reserve. Nothing else refuses a creation.
   */
  lemma AdmissionExactly(limits: Limits, w: World, creation: Creation)
    requires UploadsValid(w) && creation.budget == Some(Free(limits, w) - limits.reserve)
    requires forall id :: id in w.uploads ==> !w.uploads[id].past.damaged && AtRest(w.uploads[id])
    ensures Admission(Rows(w.uploads), w.messages, w.reservations, creation)
         == if MessageFor(w.messages, creation.meta.requestId) || creation.meta.requestId in w.reservations then Err(Conflict)
            else if |ActiveIds(w.uploads)| >= creation.maxActive then Err(CapacityExceeded)
            else if Sum(w.uploads, MayUse) + 2 * creation.meta.size + limits.reserve > limits.total then Err(CommitmentExceeded)
            else Ok(())
  {
    forall id | id in w.uploads
      ensures Commitment(w.uploads[id].row) + Usage(w.uploads[id]) == MayUse(w.uploads[id])
    {
      CommitmentExactly(w.uploads[id]);
    }
    CommitmentsExactly(w.uploads);
    ActiveCount(w.uploads);
  }

  // ---- How many uploads are active ----

  ghost function ActiveUpload(u: Upload): int {
    ActiveOne(u.row)
  }

  lemma RowsCountTheSame(uploads: map<Id, Upload>)
    ensures Sum(Rows(uploads), ActiveOne) == Sum(uploads, ActiveUpload)
  {
    Compare(Rows(uploads), ActiveOne, uploads, ActiveUpload);
    Compare(uploads, ActiveUpload, Rows(uploads), ActiveOne);
  }

  lemma NoneBecomesActive(u: Upload, step: Step)
    requires Inv(u) && Can(u, step)
    ensures ActiveUpload(After(u, step)) <= ActiveUpload(u)
  {
    StepKeeps(u, step);
  }

  lemma CreateTakesASlot(limits: Limits, w: World, step: WorldStep)
    requires step.Create? && CanStep(limits, w, step)
    ensures Sum(AfterStep(limits, w, step).uploads, ActiveUpload) <= limits.maxActive
  {
    var u := AfterStep(limits, w, step).uploads[step.id];
    RowsCountTheSame(w.uploads);
    Update(w.uploads, ActiveUpload, step.id, u);
    assert AfterStep(limits, w, step).uploads == w.uploads[step.id := u];
  }

  lemma NextStaysWithinSlots(limits: Limits, w: World, x: World)
    requires WorldInv(w) && Advances(limits, w, x)
    requires Sum(w.uploads, ActiveUpload) <= Max(0, limits.maxActive)
    ensures Sum(x.uploads, ActiveUpload) <= Max(0, limits.maxActive)
  {
    var step :| CanStep(limits, w, step) && x == AfterStep(limits, w, step);
    if step.Create? {
      CreateTakesASlot(limits, w, step);
    } else if step.Local? {
      NoneBecomesActive(w.uploads[step.id], step.step);
      Update(w.uploads, ActiveUpload, step.id, After(w.uploads[step.id], step.step));
    } else {
      SharedMovesNoUpload(limits, w, step);
    }
  }

  ghost predicate WithinSlots(limits: Limits, w: World) {
    WorldInv(w) && Sum(w.uploads, ActiveUpload) <= Max(0, limits.maxActive)
  }

  lemma RunStepStaysWithinSlots(limits: Limits, states: seq<World>, k: nat)
    requires 0 < k < |states| && RunStep(limits, states, k) && WithinSlots(limits, states[k - 1])
    ensures WithinSlots(limits, states[k])
  {
    AdvanceKeeps(limits, states[k - 1], states[k]);
    NextStaysWithinSlots(limits, states[k - 1], states[k]);
  }

  /** Over every run there are never more active uploads than the configured number. */
  lemma {:induction false} ActiveUploadsAreBounded(limits: Limits, states: seq<World>, k: nat)
    requires Run(limits, states) && k < |states|
    ensures WithinSlots(limits, states[k])
  {
    if k == 0 {
      InitialWorldInv(states[0]);
    } else {
      ActiveUploadsAreBounded(limits, states, k - 1);
      assert RunStep(limits, states, k);
      RunStepStaysWithinSlots(limits, states, k);
    }
  }

  // ---- Why the overdraft is needed ----

  /** An upload of one byte whose body is in flight when it is cancelled. */
  ghost function Overtaken(requestId: Id, received: Bytes): Upload {
    Upload(NewSession(Meta(requestId, "", "", "", "", 1, 0, "", 1), 0, 0).(status := Cancelled),
           NoFiles, map[0 := Writer(0, Part(0, 0, 1, Sha256([0])), received, false)], Idle,
           History([0], false, false, false, false))
  }

  lemma Stepped(limits: Limits, states: seq<World>, step: WorldStep) returns (longer: seq<World>)
    requires Run(limits, states) && CanStep(limits, states[|states| - 1], step)
    ensures Run(limits, longer)
    ensures longer[|longer| - 1] == AfterStep(limits, states[|states| - 1], step)
  {
    longer := states + [AfterStep(limits, states[|states| - 1], step)];
    forall k | 0 < k < |longer|
      ensures RunStep(limits, longer, k)
    {
      if k < |states| {
        assert RunStep(limits, states, k);
      } else {
        assert Advances(limits, longer[k - 1], longer[k]);
      }
    }
  }

  /** The same upload before it is cancelled. */
  ghost function Receiving(requestId: Id, received: Bytes): Upload {
    Overtaken(requestId, received).(row := NewSession(Meta(requestId, "", "", "", "", 1, 0, "", 1), 0, 0))
  }

  /** Admission sees no commitments and no usage, so it lets in one more upload of one byte. */
  ghost predicate Vacant(limits: Limits, w: World, id: Id) {
    && limits.total - limits.reserve >= 2 && limits.maxActive > 0
    && id !in w.uploads && id !in w.files && w.messages == map[] && w.reservations == {} && w.holders == map[]
    && (forall other :: other in w.uploads ==> other != id && w.uploads[other] == Overtaken(other, []))
    && !w.stale
  }

  lemma CreateAndAdmit(limits: Limits, states: seq<World>, id: Id) returns (longer: seq<World>)
    requires Run(limits, states) && Vacant(limits, states[|states| - 1], id)
    ensures Run(limits, longer)
    ensures var w := states[|states| - 1];
            longer[|longer| - 1] == w.(uploads := w.uploads[id := Receiving(id, [])], overdraft := 0)
  {
    var w := states[|states| - 1];
    NothingCommitted(w.uploads);
    SessionOf(w, id);
    var meta := Meta(id, "", "", "", "", 1, 0, "", 1);
    longer := Stepped(limits, states, Create(id, Creation(meta, limits.maxActive, Some(Free(limits, w) - limits.reserve)), [0], 0, 0));
    assert Slice([0], 1, 0) == [0];
    assert !Carried(longer[|longer| - 1].uploads[id], 0);
    longer := Stepped(limits, longer, Local(id, Put(Admit(0, 0, Part(0, 0, 1, Sha256([0]))))));
    assert longer[|longer| - 1].uploads[id] == Receiving(id, []);
  }

  /** Creates an upload, begins its only part, and cancels it; admission no longer counts it, its request goes on. */
  lemma BeginAndCancel(limits: Limits, states: seq<World>, id: Id) returns (longer: seq<World>)
    requires Run(limits, states) && Vacant(limits, states[|states| - 1], id)
    ensures Run(limits, longer)
    ensures var w := states[|states| - 1];
            longer[|longer| - 1] == w.(uploads := w.uploads[id := Overtaken(id, [])], overdraft := 0)
  {
    longer := CreateAndAdmit(limits, states, id);
    longer := Stepped(limits, longer, Local(id, Control(CancelUpload(0, 0))));
    assert longer[|longer| - 1].uploads == states[|states| - 1].uploads[id := Overtaken(id, [])];
  }

  lemma OvertakenWeighsNothing(u: Upload, id: Id)
    requires u == Overtaken(id, [])
    ensures Usage(u) == 0 && Commitment(u.row) == 0 && ActiveOne(u.row) == 0
  {
    NothingReceived(u.writers);
  }

  lemma {:induction false} WeightlessSums(uploads: map<Id, Upload>)
    requires forall id :: id in uploads ==>
               Usage(uploads[id]) == 0 && Commitment(uploads[id].row) == 0 && ActiveOne(uploads[id].row) == 0
    ensures Sum(Rows(uploads), Commitment) == 0 && Sum(Rows(uploads), ActiveOne) == 0 && Sum(uploads, Usage) == 0
    decreases |uploads|
  {
    if uploads == map[] {
      assert Rows(uploads) == map[];
    } else {
      var id :| id in uploads;
      Without(uploads, Usage, id);
      Without(Rows(uploads), Commitment, id);
      Without(Rows(uploads), ActiveOne, id);
      assert Rows(uploads) - {id} == Rows(uploads - {id});
      WeightlessSums(uploads - {id});
    }
  }

  lemma NothingCommitted(uploads: map<Id, Upload>)
    requires forall id :: id in uploads ==> uploads[id] == Overtaken(id, [])
    ensures Sum(Rows(uploads), Commitment) == 0 && Sum(Rows(uploads), ActiveOne) == 0 && Sum(uploads, Usage) == 0
  {
    forall id | id in uploads
      ensures Usage(uploads[id]) == 0 && Commitment(uploads[id].row) == 0 && ActiveOne(uploads[id].row) == 0
    {
      OvertakenWeighsNothing(uploads[id], id);
    }
    WeightlessSums(uploads);
  }

  lemma ReceiveLate(limits: Limits, states: seq<World>, id: Id) returns (longer: seq<World>)
    requires Run(limits, states)
    requires var w := states[|states| - 1]; id in w.uploads && w.uploads[id] == Overtaken(id, [])
    ensures Run(limits, longer)
    ensures var w, x := states[|states| - 1], longer[|longer| - 1];
            && x.uploads == w.uploads[id := Overtaken(id, [0])] && x.stale == w.stale
            && Used(x.uploads) == Used(w.uploads) + 1 && x.overdraft == w.overdraft + 1
  {
    var w := states[|states| - 1];
    var u := w.uploads[id];
    assert Sha256([0]) == u.writers[0].part.sha;
    longer := Stepped(limits, states, Local(id, Put(Receive(0, [0]))));
    var v := After(u, Put(Receive(0, [0])));
    assert u.writers[0].received + [0] == [0];
    assert v.writers == Overtaken(id, [0]).writers;
    Update(u.writers, Received, 0, v.writers[0]);
    Update(w.uploads, Usage, id, v);
  }

  /** Three uploads of one byte, each begun and cancelled while its body is still to come, admitted with room for one. */
  lemma ThreeCancelled(limits: Limits) returns (states: seq<World>)
    requires limits.total - limits.reserve == 2 && limits.maxActive > 0
    ensures Run(limits, states)
    ensures var w := states[|states| - 1];
            && w.uploads == map["a" := Overtaken("a", []), "b" := Overtaken("b", []), "c" := Overtaken("c", [])]
            && !w.stale && Used(w.uploads) == 0
  {
    states := [World(map[], map[], map[], {}, map[], false, 0)];
    states := BeginAndCancel(limits, states, "a");
    states := BeginAndCancel(limits, states, "b");
    states := BeginAndCancel(limits, states, "c");
    NothingCommitted(states[|states| - 1].uploads);
  }

  /** A run without damage, crowding or stale measurement on which free space falls below the reserve. */
  lemma CancelledWorkOverdraws(limits: Limits) returns (states: seq<World>)
    requires limits.total - limits.reserve == 2 && limits.maxActive > 0
    ensures Run(limits, states)
    ensures var w := states[|states| - 1]; Clean(w) && Free(limits, w) < limits.reserve
  {
    states := ThreeCancelled(limits);
    states := ReceiveLate(limits, states, "a");
    states := ReceiveLate(limits, states, "b");
    states := ReceiveLate(limits, states, "c");
    OverdrawnWorld(states[|states| - 1]);
  }

  lemma OverdrawnWorld(w: World)
    requires w.uploads == map["a" := Overtaken("a", [0]), "b" := Overtaken("b", [0]), "c" := Overtaken("c", [0])] && !w.stale
    ensures Clean(w)
  {
  }

  /** An upload of one byte, received and confirmed. */
  ghost function Confirmed(requestId: Id): Upload {
    Upload(NewSession(Meta(requestId, "", "", "", "", 1, 0, "", 1), 0, 0).(
             status := Uploading, confirmed := 1, parts := map[0 := Part(0, 0, 1, Sha256([0]))]),
           Files(map[0 := [0]], None, None), map[], Idle, History([0], false, false, false, false))
  }

  lemma ConfirmsTheByte(id: Id)
    ensures ConfirmPart(Receiving(id, []).row, 0, Part(0, 0, 1, Sha256([0])), 0, 0) == Ok(Confirmed(id).row)
  {
    var part := Part(0, 0, 1, Sha256([0]));
    var none: map<int, Part> := map[];
    Update(none, PartSize, 0, part);
    assert none[0 := part] == map[0 := part];
  }

  lemma CreateAndReceive(limits: Limits, states: seq<World>, id: Id) returns (longer: seq<World>)
    requires Run(limits, states) && Vacant(limits, states[|states| - 1], id)
    ensures Run(limits, longer)
    ensures var w := states[|states| - 1];
            longer[|longer| - 1] == w.(uploads := w.uploads[id := Receiving(id, [0])], overdraft := 0)
  {
    longer := CreateAndAdmit(limits, states, id);
    assert [] + [0] == [0];
    longer := Stepped(limits, longer, Local(id, Put(Receive(0, [0]))));
    assert longer[|longer| - 1].uploads[id].writers == Receiving(id, [0]).writers;
    assert longer[|longer| - 1].uploads == states[|states| - 1].uploads[id := Receiving(id, [0])];
  }

  /** Creates an upload of one byte, and receives, links and confirms its only part. */
  lemma CreateAndConfirm(limits: Limits, states: seq<World>, id: Id) returns (longer: seq<World>)
    requires Run(limits, states) && Vacant(limits, states[|states| - 1], id)
    ensures Run(limits, longer)
    ensures var w := states[|states| - 1];
            longer[|longer| - 1] == w.(uploads := w.uploads[id := Confirmed(id)], overdraft := 0)
  {
    longer := CreateAndReceive(limits, states, id);
    longer := Stepped(limits, longer, Local(id, Put(Link(0))));
    ConfirmsTheByte(id);
    longer := Stepped(limits, longer, Local(id, Put(Confirm(0, 0, 0))));
    longer := Stepped(limits, longer, Local(id, Put(PutStep.Leave(0))));
    assert longer[|longer| - 1].uploads[id].writers == map[];
    assert longer[|longer| - 1].uploads[id] == Confirmed(id);
    assert longer[|longer| - 1].uploads == states[|states| - 1].uploads[id := Confirmed(id)];
  }

  /**
   * The overdraft in CompletionFits is real: a clean run on which complete refuses a fully confirmed upload, because
   * one byte was written for an upload that had been cancelled.
   */
  lemma CancelledWorkBlocksCompletion(limits: Limits) returns (states: seq<World>)
    requires limits.total - limits.reserve == 2 && limits.maxActive > 0
    ensures Run(limits, states)
    ensures var w := states[|states| - 1];
            && Clean(w) && w.overdraft == 1 && "b" in w.uploads && ReadyToAssemble(w.uploads["b"])
            && Free(limits, w) == w.uploads["b"].row.meta.size + limits.reserve - 1
            && !Completable(w.uploads["b"], Free(limits, w), limits.reserve, Io(true, true, true), true)
  {
    states := [World(map[], map[], map[], {}, map[], false, 0)];
    states := BeginAndCancel(limits, states, "a");
    states := CreateAndConfirm(limits, states, "b");
    ConfirmedUsesItsByte();
    states := ReceiveLate(limits, states, "a");
    BlockedWorld(limits, states[|states| - 1]);
  }

  lemma BlockedWorld(limits: Limits, w: World)
    requires w.uploads == map["a" := Overtaken("a", [0]), "b" := Confirmed("b")] && !w.stale
    requires limits.total - limits.reserve == 2 && Used(w.uploads) == 2
    ensures Clean(w) && ReadyToAssemble(w.uploads["b"])
    ensures Free(limits, w) == w.uploads["b"].row.meta.size + limits.reserve - 1
    ensures !Completable(w.uploads["b"], Free(limits, w), limits.reserve, Io(true, true, true), true)
  {
  }

  lemma ConfirmedUsesItsByte()
    ensures Used(map["a" := Overtaken("a", []), "b" := Confirmed("b")]) == 1
  {
    var uploads := map["a" := Overtaken("a", []), "b" := Confirmed("b")];
    OvertakenWeighsNothing(uploads["a"], "a");
    Without(uploads, Usage, "a");
    Without(uploads - {"a"}, Usage, "b");
    assert uploads - {"a"} - {"b"} == map[];
    Without(uploads["b"].files.parts, Length, 0);
    assert uploads["b"].files.parts - {0} == map[];
    NothingReceived(uploads["b"].writers);
  }
}
