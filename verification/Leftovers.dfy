/** What failed publications leave behind: final files that nobody removes any more, and stale copies. */
module Leftovers {
  import opened Common
  import opened Grid
  import opened UploadRows
  import opened ChunkFiles
  import opened Publication
  import opened PublicationSafety
  import opened World
  import opened UploadService
  import opened Capacity

  // ---- The final file of an upload that has ended without a message ----

  predicate Ended(u: Upload) {
    u.row.status in {Cancelled, Expired}
  }

  /** The publication states in which the unpublished final file is still looked for. */
  predicate StillLookedFor(u: Upload) {
    u.row.publication in {Assembled, FilePublished}
  }

  ghost predicate NextUndamaged(u: Upload, v: Upload) {
    exists step :: Can(u, step) && !(step.Maintenance? && step.maintenance.Damage?) && v == After(u, step)
  }

  ghost predicate UndamagedTrail(states: seq<Upload>) {
    && |states| > 0
    && forall j, k :: 0 <= j < k < |states| && k == j + 1 ==> NextUndamaged(states[j], states[k])
  }

  ghost predicate LosesItsFinal(u: Upload) {
    exists states: seq<Upload> :: UndamagedTrail(states) && states[0] == u && states[|states| - 1].files.final.None?
  }

  lemma EndedKeepsItsFinal(u: Upload, v: Upload)
    requires Ended(u) && !StillLookedFor(u) && NextUndamaged(u, v)
    ensures v.files.final == u.files.final && Ended(v) && !StillLookedFor(v)
  {
    var step :| Can(u, step) && !(step.Maintenance? && step.maintenance.Damage?) && v == After(u, step);
    StepKeepsFinal(u, step);
  }

  lemma StepKeepsFinal(u: Upload, step: Step)
    requires Ended(u) && !StillLookedFor(u) && Can(u, step) && !(step.Maintenance? && step.maintenance.Damage?)
    ensures var v := After(u, step); v.files.final == u.files.final && Ended(v) && !StillLookedFor(v)
  {
    match step
    case Put(s) => PutKeepsFinal(u, s);
    case Control(s) => ControlKeepsFinal(u, s);
    case Completion(s) => CompletionKeepsFinal(u, s);
    case Maintenance(s) => MaintenanceKeepsFinal(u, s);
  }

  lemma PutKeepsFinal(u: Upload, step: PutStep)
    requires Ended(u) && CanPut(u, step)
    ensures var v := AfterPut(u, step);
            v.files.final == u.files.final && v.row.status == u.row.status && v.row.publication == u.row.publication
  {
  }

  lemma ControlKeepsFinal(u: Upload, step: ControlStep)
    requires Ended(u) && !StillLookedFor(u) && CanControl(u, step)
    ensures var v := AfterControl(u, step); v.files.final == u.files.final && Ended(v) && v.row.publication == u.row.publication
  {
  }

  lemma CompletionKeepsFinal(u: Upload, step: CompletionStep)
    requires Ended(u) && CanComplete(u, step)
    ensures var v := AfterComplete(u, step);
            v.files.final == u.files.final && v.row.status == u.row.status && v.row.publication == u.row.publication
  {
  }

  lemma MaintenanceKeepsFinal(u: Upload, step: MaintenanceStep)
    requires Ended(u) && !StillLookedFor(u) && CanMaintain(u, step) && !step.Damage?
    ensures var v := AfterMaintain(u, step);
            v.files.final == u.files.final && v.row.status == u.row.status && v.row.publication == u.row.publication
  {
  }

  lemma {:induction false} KeptForever(states: seq<Upload>, k: nat)
    requires UndamagedTrail(states) && k < |states|
    requires Ended(states[0]) && !StillLookedFor(states[0])
    ensures states[k].files.final == states[0].files.final && Ended(states[k]) && !StillLookedFor(states[k])
  {
    if k > 0 {
      KeptForever(states, k - 1);
      assert NextUndamaged(states[k - 1], states[k]);
      EndedKeepsItsFinal(states[k - 1], states[k]);
    }
  }

  /**
   * When the final file of a cancelled or expired upload can still go away: exactly while the publication state says
   * that there may be one. In every other state no request, recovery, sweep or crash ever removes it.
   */
  lemma EndedFinalGoesExactly(u: Upload)
    requires Ended(u) && u.files.final.Some?
    ensures LosesItsFinal(u) <==> StillLookedFor(u)
  {
    if StillLookedFor(u) {
      var v := After(u, Control(DropFinal));
      assert NextUndamaged(u, v);
      assert UndamagedTrail([u, v]);
      assert [u, v][0] == u && [u, v][|[u, v]| - 1] == v;
    } else if LosesItsFinal(u) {
      var states: seq<Upload> :| UndamagedTrail(states) && states[0] == u && states[|states| - 1].files.final.None?;
      KeptForever(states, |states| - 1);
    }
  }

  /** There is none to keep unless storage was damaged or an earlier publication failed on input or output. */
  lemma NoneKeptWithoutFault(u: Upload)
    requires Inv(u) && !u.past.damaged && !u.past.faulted && Ended(u) && u.files.final.Some?
    ensures LosesItsFinal(u)
  {
    EndedFinalGoesExactly(u);
  }

  // ---- How they come about ----

  /** The upload of one byte, whose only part is confirmed, while it is verified. */
  ghost function OneByte(id: Id, publication: UploadRows.Publication, sha: Option<Digest>, temp: Option<Bytes>, final: Option<Bytes>,
                         phase: Phase): Upload {
    var u := Confirmed(id);
    u.(row := u.row.(status := Verifying, publication := publication, fileSha := sha),
       files := u.files.(temp := temp, final := final), phase := phase)
  }

  ghost function OneByteSha(): Option<Digest> {
    Some(Sha256([0]))
  }

  /** The same upload after its publication failed on input or output and was resumed. */
  ghost function Resumed(id: Id, temp: Option<Bytes>, final: Option<Bytes>): Upload {
    var u := OneByte(id, Assembled, OneByteSha(), temp, final, Idle);
    u.(row := u.row.(status := Uploading), past := u.past.(faulted := true))
  }

  /** One more step of one upload in a run of the server. */
  lemma Moved(limits: Limits, states: seq<World>, id: Id, step: Step, v: Upload) returns (longer: seq<World>)
    requires Run(limits, states) && id in states[|states| - 1].uploads
    requires !(step.Maintenance? && step.maintenance.FinalizeUpload?)
    requires Can(states[|states| - 1].uploads[id], step) && v == After(states[|states| - 1].uploads[id], step)
    ensures Run(limits, longer)
    ensures longer[|longer| - 1].uploads == states[|states| - 1].uploads[id := v]
  {
    longer := Stepped(limits, states, Local(id, step));
  }

  /** A run that creates the upload, confirms its part and assembles the copy, up to recording the digest. */
  lemma RunToAssembled(limits: Limits, id: Id) returns (states: seq<World>)
    requires limits.total - limits.reserve >= 2 && limits.maxActive > 0
    ensures Run(limits, states)
    ensures states[|states| - 1].uploads
         == map[id := OneByte(id, Assembled, OneByteSha(), Some([0]), None, Publishing(Pending(1, Sha256([0]))))]
  {
    states := [World(map[], map[], map[], {}, map[], false, 0)];
    states := CreateAndConfirm(limits, states, id);
    states := AssembleOnce(limits, states, id);
    states := Moved(limits, states, id, Completion(MarkAssembled(0, 0)),
                    OneByte(id, Assembled, OneByteSha(), Some([0]), None, Publishing(Pending(1, Sha256([0])))));
  }

  lemma OneByteTiles(id: Id)
    ensures Tiles(Confirmed(id).row.parts, 1)
  {
    assert Covered(Confirmed(id).row.parts, 0);
  }

  lemma AssembleOnce(limits: Limits, states: seq<World>, id: Id) returns (longer: seq<World>)
    requires Run(limits, states) && states[|states| - 1].uploads == map[id := Confirmed(id)]
    ensures Run(limits, longer)
    ensures longer[|longer| - 1].uploads
         == map[id := OneByte(id, Assembling, None, Some([0]), None, Ready(Pending(1, Sha256([0]))))]
  {
    var plan := Confirmed(id).row.parts;
    longer := Moved(limits, states, id, Completion(Await), Confirmed(id).(phase := Waiting));
    OneByteTiles(id);
    longer := Moved(limits, longer, id, Completion(Start(0, 0)), OneByte(id, Assembling, None, None, None, Opening(plan)));
    longer := Moved(limits, longer, id, Completion(OpenTemp), OneByte(id, Assembling, None, Some([]), None, Copying(plan, 0, [])));
    longer := CopyOnce(limits, longer, id);
  }

  lemma CopyOnce(limits: Limits, states: seq<World>, id: Id) returns (longer: seq<World>)
    requires Run(limits, states)
    requires states[|states| - 1].uploads
          == map[id := OneByte(id, Assembling, None, Some([]), None, Copying(Confirmed(id).row.parts, 0, []))]
    ensures Run(limits, longer)
    ensures longer[|longer| - 1].uploads
         == map[id := OneByte(id, Assembling, None, Some([0]), None, Ready(Pending(1, Sha256([0]))))]
  {
    assert [] + [0] == [0];
    longer := Moved(limits, states, id, Completion(CopyPart),
                    OneByte(id, Assembling, None, Some([0]), None, Copying(Confirmed(id).row.parts, 1, [0])));
    longer := Moved(limits, longer, id, Completion(CopyDone),
                    OneByte(id, Assembling, None, Some([0]), None, Ready(Pending(1, Sha256([0])))));
  }

  /** The publication is given up because of its input or output, and the client resumes the upload. */
  lemma FailAndResume(limits: Limits, states: seq<World>, id: Id, temp: Option<Bytes>, final: Option<Bytes>)
    returns (longer: seq<World>)
    requires Run(limits, states)
    requires states[|states| - 1].uploads == map[id := OneByte(id, Assembled, OneByteSha(), temp, final, Idle)]
    ensures Run(limits, longer)
    ensures longer[|longer| - 1].uploads == map[id := Resumed(id, temp, final)]
  {
    var failed := Resumed(id, temp, final);
    longer := Moved(limits, states, id, Maintenance(FailPublication(false, 0, 0)),
                    failed.(row := failed.row.(status := Failed, error := Some("publication_error"))));
    longer := Moved(limits, longer, id, Control(Switch(Resume, "", 0, 0)), Resumed(id, temp, final));
  }

  /**
   * The rename failed, and so did the recovery: an undamaged, fully confirmed upload is uploading beside a stale
   * final.uploading, which its next complete request finds in the way.
   */
  lemma StaleCopyIsReachable(limits: Limits, id: Id) returns (states: seq<World>)
    requires limits.total - limits.reserve >= 2 && limits.maxActive > 0
    ensures Run(limits, states) && id in states[|states| - 1].uploads
    ensures var u := states[|states| - 1].uploads[id];
            && !u.past.damaged && u.row.status == Uploading && u.row.confirmed == u.row.meta.size
            && u.files.temp.Some? && u.phase.Idle? && u.writers == map[]
            && forall freeBytes, reserve: int :: !Completable(u, freeBytes, reserve, Io(true, true, true), true)
  {
    states := RunToAssembled(limits, id);
    states := Moved(limits, states, id, Completion(Exit), OneByte(id, Assembled, OneByteSha(), Some([0]), None, Idle));
    states := FailAndResume(limits, states, id, Some([0]), None);
  }

  /** The rename worked, but a crash came before it was recorded, and the recovery could not read the file. */
  lemma RunToStaleFinal(limits: Limits, id: Id) returns (states: seq<World>)
    requires limits.total - limits.reserve >= 2 && limits.maxActive > 0
    ensures Run(limits, states)
    ensures states[|states| - 1].uploads == map[id := StartedAgain(id, Opening(Confirmed(id).row.parts))]
  {
    states := RunToAssembled(limits, id);
    states := Moved(limits, states, id, Maintenance(Rename),
                    OneByte(id, Assembled, OneByteSha(), None, Some([0]), Renamed(Pending(1, Sha256([0])))));
    states := Moved(limits, states, id, Maintenance(Crash), OneByte(id, Assembled, OneByteSha(), None, Some([0]), Idle));
    states := FailAndResume(limits, states, id, None, Some([0]));
    states := Moved(limits, states, id, Completion(Await), Resumed(id, None, Some([0])).(phase := Waiting));
    OneByteTiles(id);
    states := Moved(limits, states, id, Completion(Start(0, 0)), StartedAgain(id, Opening(Confirmed(id).row.parts)));
  }

  /** A complete request assembles once more beside the final file of the failed publication. */
  ghost function StartedAgain(id: Id, phase: Phase): Upload {
    var u := OneByte(id, Assembling, OneByteSha(), None, Some([0]), phase);
    u.(past := u.past.(faulted := true))
  }

  /** The upload that has ended, with its directory swept. */
  ghost predicate FinalIsLeft(u: Upload, status: Status, publication: UploadRows.Publication) {
    && !u.past.damaged && u.row.status == status && u.row.publication == publication
    && u.files == Files(map[], None, Some([0])) && u.writers == map[] && u.phase.Idle? && !LosesItsFinal(u)
  }

  /** Cancelled while it is being assembled again. */
  lemma CancelledAssemblyLeavesItsFinal(limits: Limits, id: Id) returns (states: seq<World>)
    requires limits.total - limits.reserve >= 2 && limits.maxActive > 0
    ensures Run(limits, states) && id in states[|states| - 1].uploads
    ensures FinalIsLeft(states[|states| - 1].uploads[id], Cancelled, Assembling)
  {
    states := RunToStaleFinal(limits, id);
    var u := StartedAgain(id, Idle);
    var v := u.(row := u.row.(status := Cancelled));
    states := Moved(limits, states, id, Control(CancelUpload(0, 0)), v.(phase := Opening(Confirmed(id).row.parts)));
    states := Moved(limits, states, id, Completion(Abort), v);
    states := SweepAndKeep(limits, states, id, v);
  }

  lemma SweepAndKeep(limits: Limits, states: seq<World>, id: Id, v: Upload) returns (longer: seq<World>)
    requires Run(limits, states) && states[|states| - 1].uploads == map[id := v]
    requires Ended(v) && !StillLookedFor(v) && !v.past.damaged && v.files.final == Some([0]) && v.writers == map[] && v.phase.Idle?
    ensures Run(limits, longer) && id in longer[|longer| - 1].uploads
    ensures FinalIsLeft(longer[|longer| - 1].uploads[id], v.row.status, v.row.publication)
  {
    var swept := v.(files := Files(map[], None, Some([0])));
    assert AfterControl(v, Sweep({}, false)).files.parts == map[];
    longer := Moved(limits, states, id, Control(Sweep({}, false)), swept);
    EndedFinalGoesExactly(swept);
  }

  /** Reset by the recovery after a crash of that assembly, which forgets the publication, and ended then. */
  lemma RunToForgottenFinal(limits: Limits, id: Id) returns (states: seq<World>)
    requires limits.total - limits.reserve >= 2 && limits.maxActive > 0
    ensures Run(limits, states)
    ensures states[|states| - 1].uploads == map[id := Forgotten(id, Uploading)]
  {
    states := RunToStaleFinal(limits, id);
    states := Moved(limits, states, id, Maintenance(Crash), StartedAgain(id, Idle));
    states := Moved(limits, states, id, Maintenance(Reset), Forgotten(id, Uploading));
  }

  ghost function Forgotten(id: Id, status: Status): Upload {
    var u := StartedAgain(id, Idle);
    u.(row := u.row.(status := status, publication := Unpublished, fileSha := None))
  }

  lemma CancelledAfterResetLeavesItsFinal(limits: Limits, id: Id) returns (states: seq<World>)
    requires limits.total - limits.reserve >= 2 && limits.maxActive > 0
    ensures Run(limits, states) && id in states[|states| - 1].uploads
    ensures FinalIsLeft(states[|states| - 1].uploads[id], Cancelled, Unpublished)
  {
    states := RunToForgottenFinal(limits, id);
    states := Moved(limits, states, id, Control(CancelUpload(0, 0)), Forgotten(id, Cancelled));
    states := SweepAndKeep(limits, states, id, Forgotten(id, Cancelled));
  }

  lemma ExpiredAfterResetLeavesItsFinal(limits: Limits, id: Id) returns (states: seq<World>)
    requires limits.total - limits.reserve >= 2 && limits.maxActive > 0
    ensures Run(limits, states) && id in states[|states| - 1].uploads
    ensures FinalIsLeft(states[|states| - 1].uploads[id], Expired, Unpublished)
  {
    states := RunToForgottenFinal(limits, id);
    var u := Forgotten(id, Expired);
    var expired := u.(row := u.row.(error := Some("expired")));
    states := Moved(limits, states, id, Maintenance(Expire(0, true)), expired);
    states := SweepAndKeep(limits, states, id, expired);
  }
}
