/** When an upload may expire: a time-to-live after the last thing that was done to it. */
module Expiry {
  import opened Common
  import opened UploadRows
  import opened Publication
  import opened PublicationSafety
  import opened UploadService

  /** The transaction of this step, if it is one, runs at this time. */
  predicate HappensAt(step: Step, now: int, ttl: int) {
    match step
    case Put(Confirm(_, at, span)) => at == now && span == ttl
    case Control(Switch(_, _, at, span)) => at == now && span == ttl
    case Control(CancelUpload(at, span)) => at == now && span == ttl
    case Completion(Start(at, span)) => at == now && span == ttl
    case Completion(Invalidate(_, at, span)) => at == now && span == ttl
    case Completion(MarkAssembled(at, span)) => at == now && span == ttl
    case Maintenance(MarkPublished(at, span)) => at == now && span == ttl
    case Maintenance(Reconcile(at, span)) => at == now && span == ttl
    case Maintenance(FailPublication(_, at, span)) => at == now && span == ttl
    case Maintenance(Expire(at, _)) => at == now
    case _ => true
  }

  /**
   * The steps that give the upload a new time-to-live: a part confirmed for the first time, pause and resume, the first
   * cancellation, each advance of a publication, and each failure that is recorded. Replays, resets, files and
   * finalization do not.
   */
  predicate Renews(u: Upload, step: Step) {
    match step
    case Put(Confirm(w, _, _)) => w in u.writers && u.writers[w].index !in u.row.parts
    case Control(Switch(_, _, _, _)) => true
    case Control(CancelUpload(_, _)) => u.row.status != Cancelled
    case Completion(Start(_, _)) => true
    case Completion(Invalidate(_, _, _)) => true
    case Completion(MarkAssembled(_, _)) => true
    case Maintenance(MarkPublished(_, _)) => u.row.publication != FilePublished
    case Maintenance(Reconcile(_, _)) => !Terminal(u.row.status) && u.row.publication in {Unpublished, Assembling}
    case Maintenance(FailPublication(reset, _, _)) => reset || u.row.status != Failed || u.row.error != Some("publication_error")
    case _ => false
  }

  lemma PutRenews(u: Upload, step: PutStep, now: int, ttl: int)
    requires CanPut(u, step) && HappensAt(Put(step), now, ttl)
    ensures AfterPut(u, step).row.expiresAt == if Renews(u, Put(step)) then now + ttl else u.row.expiresAt
  {
  }

  lemma ControlRenews(u: Upload, step: ControlStep, now: int, ttl: int)
    requires CanControl(u, step) && HappensAt(Control(step), now, ttl)
    ensures AfterControl(u, step).row.expiresAt == if Renews(u, Control(step)) then now + ttl else u.row.expiresAt
  {
  }

  lemma CompletionRenews(u: Upload, step: CompletionStep, now: int, ttl: int)
    requires CanComplete(u, step) && HappensAt(Completion(step), now, ttl)
    ensures AfterComplete(u, step).row.expiresAt == if Renews(u, Completion(step)) then now + ttl else u.row.expiresAt
  {
  }

  lemma MaintenanceRenews(u: Upload, step: MaintenanceStep, now: int, ttl: int)
    requires Inv(u) && CanMaintain(u, step) && HappensAt(Maintenance(step), now, ttl)
    ensures AfterMaintain(u, step).row.expiresAt == if Renews(u, Maintenance(step)) then now + ttl else u.row.expiresAt
  {
  }

  /** Every step either sets the expiry to its own time and the time-to-live, or leaves it alone. */
  lemma RenewsExactly(u: Upload, step: Step, now: int, ttl: int)
    requires Inv(u) && Can(u, step) && HappensAt(step, now, ttl)
    ensures After(u, step).row.expiresAt == if Renews(u, step) then now + ttl else u.row.expiresAt
  {
    match step
    case Put(s) => PutRenews(u, s, now, ttl);
    case Control(s) => ControlRenews(u, s, now, ttl);
    case Completion(s) => CompletionRenews(u, s, now, ttl);
    case Maintenance(s) => MaintenanceRenews(u, s, now, ttl);
  }

  // ---- Over trails ----

  ghost predicate TimedStep(states: seq<Upload>, steps: seq<Step>, times: seq<int>, ttl: int, k: nat)
    requires k < |steps| && |states| == |steps| + 1 && |times| == |steps|
  {
    Can(states[k], steps[k]) && states[k + 1] == After(states[k], steps[k]) && HappensAt(steps[k], times[k], ttl)
  }

  /** A trail with its steps and their times; requests that overlap may write in another order than they began. */
  ghost predicate TimedTrail(states: seq<Upload>, steps: seq<Step>, times: seq<int>, ttl: int) {
    && |states| == |steps| + 1 && |times| == |steps| && Inv(states[0])
    && forall k :: 0 <= k < |steps| ==> TimedStep(states, steps, times, ttl, k)
  }

  lemma {:induction false} TimedTrailKeeps(states: seq<Upload>, steps: seq<Step>, times: seq<int>, ttl: int, k: nat)
    requires TimedTrail(states, steps, times, ttl) && k < |states|
    ensures Inv(states[k])
  {
    if k > 0 {
      TimedTrailKeeps(states, steps, times, ttl, k - 1);
      assert TimedStep(states, steps, times, ttl, k - 1);
      StepKeeps(states[k - 1], steps[k - 1]);
    }
  }

  /** The expiry as the renewing steps alone determine it. */
  ghost function Deadline(states: seq<Upload>, steps: seq<Step>, times: seq<int>, ttl: int, k: nat): int
    requires k < |states| == |steps| + 1 && |times| == |steps|
  {
    if k == 0 then states[0].row.expiresAt
    else if Renews(states[k - 1], steps[k - 1]) then times[k - 1] + ttl
    else Deadline(states, steps, times, ttl, k - 1)
  }

  lemma {:induction false} ExpiryIsTheDeadline(states: seq<Upload>, steps: seq<Step>, times: seq<int>, ttl: int, k: nat)
    requires TimedTrail(states, steps, times, ttl) && k < |states|
    ensures states[k].row.expiresAt == Deadline(states, steps, times, ttl, k)
  {
    if k > 0 {
      ExpiryIsTheDeadline(states, steps, times, ttl, k - 1);
      TimedTrailKeeps(states, steps, times, ttl, k - 1);
      assert TimedStep(states, steps, times, ttl, k - 1);
      RenewsExactly(states[k - 1], steps[k - 1], times[k - 1], ttl);
    }
  }

  /**
   * An upload can be expired exactly when it is active, has no request in flight, and a time-to-live has passed since
   * the last step that renewed it, or since its creation.
   */
  lemma ExpirableExactly(states: seq<Upload>, steps: seq<Step>, times: seq<int>, ttl: int, k: nat, now: int)
    requires TimedTrail(states, steps, times, ttl) && k < |states|
    ensures Expirable(states[k], now) <==>
              && states[k].row.status in {Queued, Uploading, Paused, Verifying, Failed}
              && states[k].phase.Idle? && states[k].writers == map[]
              && Deadline(states, steps, times, ttl, k) <= now
  {
    ExpiryIsTheDeadline(states, steps, times, ttl, k);
  }

  lemma {:induction false} DeadlineIsNotMovedBack(states: seq<Upload>, steps: seq<Step>, times: seq<int>, ttl: int, j: nat, k: nat, at: int)
    requires k < |states| == |steps| + 1 && |times| == |steps| && j <= k
    requires Deadline(states, steps, times, ttl, j) >= at && forall i :: j <= i < k ==> times[i] + ttl >= at
    ensures Deadline(states, steps, times, ttl, k) >= at
    decreases k
  {
    if k > j {
      DeadlineIsNotMovedBack(states, steps, times, ttl, j, k - 1, at);
    }
  }

  /** As long as clocks do not go back, an upload cannot expire before the end of the time-to-live of any renewing step. */
  lemma NotBeforeTheTimeToLive(states: seq<Upload>, steps: seq<Step>, times: seq<int>, ttl: int, j: nat, k: nat, now: int)
    requires TimedTrail(states, steps, times, ttl) && j < k < |states|
    requires Renews(states[j], steps[j]) && (forall i :: j <= i < k ==> times[j] <= times[i])
    requires now < times[j] + ttl
    ensures !Expirable(states[k], now)
  {
    DeadlineIsNotMovedBack(states, steps, times, ttl, j + 1, k, times[j] + ttl);
    ExpiryIsTheDeadline(states, steps, times, ttl, k);
  }

  /** Nor before the end of the time-to-live it was created with. */
  lemma NotBeforeTheFirstTimeToLive(states: seq<Upload>, steps: seq<Step>, times: seq<int>, ttl: int, k: nat, created: int, now: int)
    requires TimedTrail(states, steps, times, ttl) && k < |states|
    requires states[0].row == Session(states[0].row.meta, Queued, Unpublished, 0, None, None, None, created + ttl, map[])
    requires (forall i :: 0 <= i < k ==> created <= times[i]) && now < created + ttl
    ensures !Expirable(states[k], now)
  {
    DeadlineIsNotMovedBack(states, steps, times, ttl, 0, k, created + ttl);
    ExpiryIsTheDeadline(states, steps, times, ttl, k);
  }
}
