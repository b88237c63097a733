/** Purging deleted files: claims with leases and tokens, agents that stall and are overtaken, deletion and restore. */
module Purge {
  import opened Common
  import UploadRows

  type Id = UploadRows.Id

  datatype PurgeState = ActiveFile | Claimed(token: nat, at: int) | Purged

  /** A files row with its message's deleted_at, its file, and the number of file.purged events written for it. */
  datatype Entry = Entry(state: PurgeState, deletedAt: Option<int>, onDisk: bool, events: nat)

  const NewEntry := Entry(ActiveFile, None, true, 0)

  // ---- Transactions ----

  function SoftDelete(e: Entry, now: int): Entry {
    if e.deletedAt.None? then e.(deletedAt := Some(now)) else e
  }

  /** None is RestoreWindowExpired. */
  function Restore(e: Entry, now: int, undo: int): Option<Entry> {
    if e.deletedAt.None? then Some(e)
    else if e.deletedAt.value > now - undo && e.state.ActiveFile? then Some(e.(deletedAt := None))
    else None
  }

  predicate Due(e: Entry, cutoff: int) {
    e.state.ActiveFile? && e.deletedAt.Some? && e.deletedAt.value <= cutoff
  }

  function TakeOver(e: Entry, previous: nat, staleBefore: int, token: nat, now: int): Option<Entry> {
    if e.state.Claimed? && e.state.token == previous && e.state.at < staleBefore then Some(e.(state := Claimed(token, now)))
    else None
  }

  function Finalize(e: Entry, token: nat): Option<Entry> {
    if e.state.Claimed? && e.state.token == token then Some(e.(state := Purged, events := e.events + 1)) else None
  }

  function Release(e: Entry, token: nat): Entry {
    if e.state.Claimed? && e.state.token == token then e.(state := ActiveFile) else e
  }

  // ---- Agents ----

  /** A claimer releases its claim when it cannot unlink the file; a recoverer never does. */
  datatype Stage = Pending | Unlinked | Refused

  datatype Agent = Agent(claimer: bool, stage: Stage)

  /** `issued` remembers every token ever made, and whether a claim or a takeover made it. */
  datatype Purging = Purging(entry: Entry, agents: map<nat, Agent>, issued: map<nat, bool>)

  datatype PurgeStep =
    | Delete(now: int)
    | Undelete(now: int, undo: int)
    | ClaimFile(token: nat, cutoff: int, now: int)
    | Overtake(previous: nat, staleBefore: int, token: nat, now: int)
    | Unlink(token: nat, works: bool)
    | FinalizeClaim(token: nat)
    | ReleaseClaim(token: nat)
    | Vanish(token: nat)

  ghost predicate CanPurge(p: Purging, step: PurgeStep) {
    match step
    case Delete(now) => true
    case Undelete(now, undo) => Restore(p.entry, now, undo).Some?
    case ClaimFile(token, cutoff, now) => Due(p.entry, cutoff) && token !in p.issued
    case Overtake(previous, staleBefore, token, now) =>
      TakeOver(p.entry, previous, staleBefore, token, now).Some? && token !in p.issued
    case Unlink(token, works) => token in p.agents && p.agents[token].stage == Pending
    case FinalizeClaim(token) => token in p.agents && p.agents[token].stage == Unlinked
    case ReleaseClaim(token) => token in p.agents && p.agents[token] == Agent(true, Refused)
    case Vanish(token) => token in p.agents
  }

  ghost function AfterPurge(p: Purging, step: PurgeStep): Purging
    requires CanPurge(p, step)
  {
    match step
    case Delete(now) => p.(entry := SoftDelete(p.entry, now))
    case Undelete(now, undo) => p.(entry := Restore(p.entry, now, undo).value)
    case ClaimFile(token, cutoff, now) =>
      Purging(p.entry.(state := Claimed(token, now)), p.agents[token := Agent(true, Pending)], p.issued[token := true])
    case Overtake(previous, staleBefore, token, now) =>
      Purging(TakeOver(p.entry, previous, staleBefore, token, now).value,
              p.agents[token := Agent(false, Pending)], p.issued[token := false])
    case Unlink(token, works) =>
      p.(entry := if works then p.entry.(onDisk := false) else p.entry,
         agents := p.agents[token := p.agents[token].(stage := if works then Unlinked else Refused)])
    case FinalizeClaim(token) =>
      p.(entry := if Finalize(p.entry, token).Some? then Finalize(p.entry, token).value else p.entry,
         agents := p.agents - {token})
    case ReleaseClaim(token) => p.(entry := Release(p.entry, token), agents := p.agents - {token})
    case Vanish(token) => p.(agents := p.agents - {token})
  }

  // ---- Invariant ----

  ghost predicate PurgeInv(p: Purging) {
    var e := p.entry;
    && (forall t :: t in p.agents ==> t in p.issued && p.issued[t] == p.agents[t].claimer)
    && (e.state.Claimed? ==> e.state.token in p.issued)
    && (e.state.ActiveFile? ==> e.onDisk && p.agents == map[])
    && (e.state.Claimed? && p.issued[e.state.token] ==>
          && (forall t :: t in p.agents ==> t == e.state.token)
          && (e.state.token in p.agents && p.agents[e.state.token].stage != Unlinked ==> e.onDisk))
    && (e.deletedAt.None? ==> e.state.ActiveFile?)
    && (e.state.Purged? ==> e.events == 1 && !e.onDisk) && (!e.state.Purged? ==> e.events == 0)
    && (forall t :: t in p.agents && p.agents[t].stage == Unlinked ==> !e.onDisk)
  }

  lemma NewFileInv()
    ensures PurgeInv(Purging(NewEntry, map[], map[]))
  {
  }

  /** What no step undoes: purged stays purged, events are counted once, and a token that lost the claim never gets it back. */
  ghost predicate Forward(p: Purging, q: Purging) {
    && (p.entry.state.Purged? ==> q.entry.state.Purged? && q.entry.events == p.entry.events)
    && p.issued.Keys <= q.issued.Keys
    && (forall t :: t in p.issued && q.entry.state.Claimed? && q.entry.state.token == t ==>
          p.entry.state.Claimed? && p.entry.state.token == t)
  }

  lemma PurgeStepKeeps(p: Purging, step: PurgeStep)
    requires PurgeInv(p) && CanPurge(p, step)
    ensures PurgeInv(AfterPurge(p, step)) && Forward(p, AfterPurge(p, step))
  {
  }

  // ---- Runs ----

  ghost predicate PurgeNext(p: Purging, q: Purging) {
    exists step :: CanPurge(p, step) && q == AfterPurge(p, step)
  }

  ghost predicate PurgeRun(states: seq<Purging>) {
    && |states| > 0 && states[0] == Purging(NewEntry, map[], map[])
    && forall j, k :: 0 <= j < k < |states| && k == j + 1 ==> PurgeNext(states[j], states[k])
  }

  lemma {:induction false} PurgeRunKeeps(states: seq<Purging>, j: nat, k: nat)
    requires PurgeRun(states) && j <= k < |states|
    ensures PurgeInv(states[k]) && Forward(states[j], states[k])
    decreases k
  {
    if k == 0 {
      NewFileInv();
    } else {
      PurgeRunKeeps(states, if j < k then j else k - 1, k - 1);
      assert PurgeNext(states[k - 1], states[k]);
      var step :| CanPurge(states[k - 1], step) && states[k] == AfterPurge(states[k - 1], step);
      PurgeStepKeeps(states[k - 1], step);
    }
  }

  /**
   * Purge safety, for any clocks and any interleaving: a message that is not deleted has its file, a pending
   * unlink means the file is claimed or purged, and never is more than one file.purged event written.
   */
  lemma LiveMessagesKeepTheirFile(states: seq<Purging>, k: nat)
    requires PurgeRun(states) && k < |states|
    ensures var p := states[k];
            && (p.entry.deletedAt.None? ==> p.entry.onDisk && p.agents == map[])
            && (forall t :: t in p.agents && p.agents[t].stage == Pending ==> !p.entry.state.ActiveFile?)
            && p.entry.events <= 1 && (p.entry.events == 1 <==> p.entry.state.Purged?)
            && (p.entry.state.Purged? ==> !p.entry.onDisk)
  {
    PurgeRunKeeps(states, k, k);
  }

  /**
   * Fencing: a token under which the claim was once left never holds it again, so whoever still carries it can
   * neither finalize nor release, and of several takeovers of one claim only the first succeeds.
   */
  lemma LostTokensStayLost(states: seq<Purging>, j: nat, k: nat, token: nat)
    requires PurgeRun(states) && j <= k < |states|
    requires token in states[j].issued
    requires !(states[j].entry.state.Claimed? && states[j].entry.state.token == token)
    ensures var e := states[k].entry;
            && Finalize(e, token).None? && Release(e, token) == e
            && forall staleBefore, winner, now :: TakeOver(e, token, staleBefore, winner, now).None?
  {
    PurgeRunKeeps(states, j, k);
  }

  /** Purged is terminal: no delete, restore, claim or late agent changes it or the number of its events. */
  lemma PurgedForever(states: seq<Purging>, j: nat, k: nat)
    requires PurgeRun(states) && j <= k < |states| && states[j].entry.state.Purged?
    ensures states[k].entry.state.Purged? && states[k].entry.events == 1 && states[k].entry.deletedAt.Some?
  {
    PurgeRunKeeps(states, j, j);
    PurgeRunKeeps(states, j, k);
  }

  // ---- Runs with clocks ----

  /** The step runs at this time; claims use the end of the undo window, restores its length, takeovers the lease. */
  predicate PurgesAt(step: PurgeStep, now: int, undo: int, lease: int) {
    match step
    case Delete(at) => at == now
    case Undelete(at, window) => at == now && window == undo
    case ClaimFile(_, cutoff, at) => at == now && cutoff <= now - undo
    case Overtake(_, staleBefore, _, at) => at == now && staleBefore <= now - lease
    case _ => true
  }

  ghost predicate TimedPurge(states: seq<Purging>, steps: seq<PurgeStep>, times: seq<int>, undo: int, lease: int, k: nat)
    requires k < |steps| && |states| == |steps| + 1 && |times| == |steps|
  {
    CanPurge(states[k], steps[k]) && states[k + 1] == AfterPurge(states[k], steps[k]) && PurgesAt(steps[k], times[k], undo, lease)
  }

  /** A run from a new file, with the steps that lead through it and their times. */
  ghost predicate TimedPurgeRun(states: seq<Purging>, steps: seq<PurgeStep>, times: seq<int>, undo: int, lease: int) {
    && |states| == |steps| + 1 && |times| == |steps| && states[0] == Purging(NewEntry, map[], map[])
    && forall k :: 0 <= k < |steps| ==> TimedPurge(states, steps, times, undo, lease, k)
  }

  /** Whoever has taken the file away, or is about to, found it deleted for at least the undo window. */
  ghost predicate TakenLate(e: Entry, now: int, undo: int) {
    !e.state.ActiveFile? ==> e.deletedAt.Some? && e.deletedAt.value <= now - undo
  }

  lemma {:induction false} TimedRunKeeps(states: seq<Purging>, steps: seq<PurgeStep>, times: seq<int>, undo: int, lease: int,
                                         k: nat, now: int)
    requires TimedPurgeRun(states, steps, times, undo, lease) && k < |states|
    requires forall i :: 0 <= i < k ==> times[i] <= now
    ensures PurgeInv(states[k]) && TakenLate(states[k].entry, now, undo)
  {
    if k == 0 {
      NewFileInv();
    } else {
      TimedRunKeeps(states, steps, times, undo, lease, k - 1, now);
      assert TimedPurge(states, steps, times, undo, lease, k - 1);
      PurgeStepKeeps(states[k - 1], steps[k - 1]);
    }
  }

  /**
   * The undo window. A deleted file that is still inside it is active and on disk with nobody at work on it, and
   * restoring it succeeds; once the window is over, restoring is refused, and so it is for a file that is taken.
   */
  lemma UndoWindow(states: seq<Purging>, steps: seq<PurgeStep>, times: seq<int>, undo: int, lease: int, k: nat, now: int)
    requires TimedPurgeRun(states, steps, times, undo, lease) && k < |states|
    requires forall i :: 0 <= i < k ==> times[i] <= now
    requires states[k].entry.deletedAt.Some?
    ensures var e := states[k].entry;
            if now < e.deletedAt.value + undo then
              && e.state == ActiveFile && e.onDisk && states[k].agents == map[]
              && Restore(e, now, undo) == Some(Entry(ActiveFile, None, true, 0))
            else Restore(e, now, undo).None?
  {
    TimedRunKeeps(states, steps, times, undo, lease, k, now);
  }

  /** The window starts with the first deletion: deleting again moves nothing, and only a restore ends it. */
  lemma DeletedOnce(p: Purging, step: PurgeStep)
    requires CanPurge(p, step)
    ensures AfterPurge(p, step).entry.deletedAt
         == match step
            case Delete(now) => if p.entry.deletedAt.Some? then p.entry.deletedAt else Some(now)
            case Undelete(_, _) => None
            case _ => p.entry.deletedAt
  {
  }

  /** A claim passes to another token exactly when it is named and older than the lease allows. */
  lemma TakenOverExactly(e: Entry, previous: nat, staleBefore: int, token: nat, now: int)
    ensures TakeOver(e, previous, staleBefore, token, now)
         == if exists at :: at < staleBefore && e.state == Claimed(previous, at) then Some(e.(state := Claimed(token, now))) else None
  {
    if e.state.Claimed? {
      assert e.state == Claimed(e.state.token, e.state.at);
    }
  }

  /** Who gives a claim back that is still its own frees the file, which is there, and nobody else is at work on it. */
  lemma ReleasedExactly(p: Purging, token: nat)
    requires PurgeInv(p) && CanPurge(p, ReleaseClaim(token))
    ensures var q := AfterPurge(p, ReleaseClaim(token));
            if exists at :: p.entry.state == Claimed(token, at)
            then q.entry == Entry(ActiveFile, p.entry.deletedAt, true, 0) && q.agents == map[]
            else q.entry == p.entry
  {
    if p.entry.state.Claimed? && p.entry.state.token == token {
      assert p.entry.state == Claimed(token, p.entry.state.at);
      assert p.agents - {token} == map[];
    }
  }

  /** Who finalizes a claim that is still its own purges the file, which is gone, with the one event; else nothing happens. */
  lemma FinalizedExactly(p: Purging, token: nat)
    requires PurgeInv(p) && CanPurge(p, FinalizeClaim(token))
    ensures AfterPurge(p, FinalizeClaim(token)).entry
         == if exists at :: p.entry.state == Claimed(token, at) then Entry(Purged, p.entry.deletedAt, false, 1) else p.entry
  {
    if p.entry.state.Claimed? && p.entry.state.token == token {
      assert p.entry.state == Claimed(token, p.entry.state.at);
    }
  }

  /** A claim made or renewed within the lease is nobody's to take over. */
  lemma FreshClaimIsKept(states: seq<Purging>, steps: seq<PurgeStep>, times: seq<int>, undo: int, lease: int, k: nat)
    requires TimedPurgeRun(states, steps, times, undo, lease) && k < |steps|
    requires states[k].entry.state.Claimed? && times[k] <= states[k].entry.state.at + lease
    ensures !steps[k].Overtake?
    ensures states[k + 1].entry.state.Claimed? ==> states[k + 1].entry.state == states[k].entry.state
  {
    assert TimedPurge(states, steps, times, undo, lease, k);
  }

  // ---- The repository ----

  /** The file is gone, and one more event says so. */
  function PurgedEntry(e: Entry): Entry {
    Entry(Purged, e.deletedAt, false, e.events + 1)
  }

  /** What the holder of a new token makes of a file that it has just claimed or taken over. */
  lemma ClaimIsWorkedOff(p: Purging, token: nat, unlinks: bool)
    requires PurgeInv(p) && p.entry.state.Claimed? && p.entry.state.token == token
    requires token in p.agents && p.agents[token].stage == Pending
    ensures CanPurge(p, Unlink(token, unlinks))
    ensures var q := AfterPurge(p, Unlink(token, unlinks));
            if unlinks then
              CanPurge(q, FinalizeClaim(token)) && AfterPurge(q, FinalizeClaim(token)).entry == PurgedEntry(p.entry)
            else if p.agents[token].claimer then
              CanPurge(q, ReleaseClaim(token)) && AfterPurge(q, ReleaseClaim(token)).entry == p.entry.(state := ActiveFile)
            else q.entry == p.entry
  {
  }

  /** A pass of purge_expired_files is a run of these steps: a due file ends purged, or as it was if it cannot be unlinked. */
  lemma PassIsARun(p: Purging, token: nat, cutoff: int, now: int, unlinks: bool)
    requires PurgeInv(p) && token !in p.issued && p.entry.state == ActiveFile
    requires p.entry.deletedAt.Some? && p.entry.deletedAt.value <= cutoff
    ensures CanPurge(p, ClaimFile(token, cutoff, now))
    ensures var q := AfterPurge(p, ClaimFile(token, cutoff, now));
            && CanPurge(q, Unlink(token, unlinks))
            && var r := AfterPurge(q, Unlink(token, unlinks));
               if unlinks then CanPurge(r, FinalizeClaim(token)) && AfterPurge(r, FinalizeClaim(token)).entry == PurgedEntry(p.entry)
               else CanPurge(r, ReleaseClaim(token)) && AfterPurge(r, ReleaseClaim(token)).entry == p.entry
  {
    var q := AfterPurge(p, ClaimFile(token, cutoff, now));
    PurgeStepKeeps(p, ClaimFile(token, cutoff, now));
    ClaimIsWorkedOff(q, token, unlinks);
  }

  /** So is a pass of recover_purge_claims: a stale claim ends purged, or renewed if the file cannot be unlinked. */
  lemma RecoveryIsARun(p: Purging, previous: nat, token: nat, staleBefore: int, now: int, unlinks: bool)
    requires PurgeInv(p) && token !in p.issued && p.entry.state.Claimed? && p.entry.state.token == previous
    requires p.entry.state.at < staleBefore
    ensures CanPurge(p, Overtake(previous, staleBefore, token, now))
    ensures var q := AfterPurge(p, Overtake(previous, staleBefore, token, now));
            && CanPurge(q, Unlink(token, unlinks))
            && var r := AfterPurge(q, Unlink(token, unlinks));
               if unlinks then CanPurge(r, FinalizeClaim(token)) && AfterPurge(r, FinalizeClaim(token)).entry == PurgedEntry(p.entry)
               else r.entry == p.entry.(state := Claimed(token, now))
  {
    var q := AfterPurge(p, Overtake(previous, staleBefore, token, now));
    PurgeStepKeeps(p, Overtake(previous, staleBefore, token, now));
    ClaimIsWorkedOff(q, token, unlinks);
  }

  class PurgeRepository {
    var files: map<Id, Entry>

    constructor ()
      ensures files == map[]
    {
      files := map[];
    }

    method SoftDeleteRow(id: Id, now: int) returns (changed: bool)
      modifies this
      ensures id !in old(files) ==> files == old(files) && !changed
      ensures id in old(files) ==> changed == old(files)[id].deletedAt.None?
      ensures id in old(files) ==> files == if changed then old(files)[id := old(files)[id].(deletedAt := Some(now))] else old(files)
    {
      if id !in files {
        return false;
      }
      changed := files[id].deletedAt.None?;
      if changed {
        files := files[id := files[id].(deletedAt := Some(now))];
      }
    }

    method RestoreRow(id: Id, now: int, undo: int) returns (restored: bool)
      requires id in files
      modifies this
      ensures var e := old(files)[id];
              restored == (e.deletedAt.None? || (now < e.deletedAt.value + undo && e.state == ActiveFile))
      ensures files == if restored then old(files)[id := old(files)[id].(deletedAt := None)] else old(files)
    {
      var e := files[id];
      if e.deletedAt.None? {
        assert files[id := e] == files;
        return true;
      }
      restored := e.deletedAt.value > now - undo && e.state.ActiveFile?;
      if restored {
        files := files[id := e.(deletedAt := None)];
      }
    }

    /** UPDATE ... RETURNING id: every due row in one transaction. */
    method ClaimExpiredFiles(cutoff: int, now: int, token: nat) returns (claimed: set<Id>)
      modifies this
      ensures claimed == set id | id in old(files) && old(files)[id].state == ActiveFile
                                      && old(files)[id].deletedAt.Some? && old(files)[id].deletedAt.value <= cutoff
      ensures files == map id | id in old(files) ::
                         if id in claimed then old(files)[id].(state := Claimed(token, now)) else old(files)[id]
    {
      claimed := set id | id in files && Due(files[id], cutoff);
      files := map id | id in files :: if id in claimed then files[id].(state := Claimed(token, now)) else files[id];
    }

    method TakeOverRow(id: Id, previous: nat, staleBefore: int, token: nat, now: int) returns (won: bool)
      requires id in files
      modifies this
      ensures var e := old(files)[id]; won == (e.state.Claimed? && e.state.token == previous && e.state.at < staleBefore)
      ensures files == if won then old(files)[id := old(files)[id].(state := Claimed(token, now))] else old(files)
    {
      var e := files[id];
      won := e.state.Claimed? && e.state.token == previous && e.state.at < staleBefore;
      if won {
        files := files[id := e.(state := Claimed(token, now))];
      }
    }

    method FinalizeRow(id: Id, token: nat) returns (done: bool)
      requires id in files
      modifies this
      ensures var e := old(files)[id]; done == (e.state.Claimed? && e.state.token == token)
      ensures var e := old(files)[id];
              files == if done then old(files)[id := e.(state := Purged, events := e.events + 1)] else old(files)
    {
      var e := files[id];
      done := e.state.Claimed? && e.state.token == token;
      if done {
        files := files[id := e.(state := Purged, events := e.events + 1)];
      }
    }

    method ReleaseRow(id: Id, token: nat)
      requires id in files
      modifies this
      ensures var e := old(files)[id];
              files == if e.state.Claimed? && e.state.token == token then old(files)[id := e.(state := ActiveFile)] else old(files)
    {
      var e := files[id];
      if e.state.Claimed? && e.state.token == token {
        files := files[id := e.(state := ActiveFile)];
      }
    }

    /** unlink(missing_ok=True) */
    method UnlinkFile(id: Id, works: bool)
      requires id in files
      modifies this
      ensures files == if works then old(files)[id := old(files)[id].(onDisk := false)] else old(files)
    {
      if works {
        files := files[id := files[id].(onDisk := false)];
      }
    }

    /** purge_expired_files with nobody else at work: exactly the due files whose unlink works are purged. */
    method PurgeExpiredFiles(now: int, undo: int, token: nat, refusing: set<Id>) returns (purged: set<Id>)
      modifies this
      ensures purged == set id | id in old(files) && old(files)[id].state == ActiveFile && old(files)[id].deletedAt.Some?
                                     && old(files)[id].deletedAt.value <= now - undo && id !in refusing
      ensures files == map id | id in old(files) :: if id in purged then PurgedEntry(old(files)[id]) else old(files)[id]
    {
      var claimed := ClaimExpiredFiles(now - undo, now, token);
      purged := PurgeClaims(claimed, token, refusing);
    }

    /** The loop of purge_expired_files over the rows it has claimed. */
    method PurgeClaims(claimed: set<Id>, token: nat, refusing: set<Id>) returns (purged: set<Id>)
      requires forall id :: id in claimed ==> id in files && files[id].state.Claimed? && files[id].state.token == token
      modifies this
      ensures purged == claimed - refusing
      ensures files == map id | id in old(files) ::
                         if id in purged then PurgedEntry(old(files)[id])
                         else if id in claimed then old(files)[id].(state := ActiveFile)
                         else old(files)[id]
    {
      purged := {};
      var todo := claimed;
      while todo != {}
        invariant todo <= claimed && files.Keys == old(files).Keys
        invariant purged == claimed - todo - refusing
        invariant forall id :: id in files && id in todo ==> files[id] == old(files)[id]
        invariant forall id :: id in files && id !in todo ==>
                    files[id] == if id !in claimed then old(files)[id]
                                 else if id in refusing then old(files)[id].(state := ActiveFile)
                                 else PurgedEntry(old(files)[id])
        decreases |todo|
      {
        var id :| id in todo;
        todo := todo - {id};
        var done := PurgeClaimed(id, token, id !in refusing);
        if done {
          purged := purged + {id};
        }
      }
    }

    method PurgeClaimed(id: Id, token: nat, unlinks: bool) returns (done: bool)
      requires id in files && files[id].state.Claimed? && files[id].state.token == token
      modifies this
      ensures done == unlinks
      ensures var e := old(files)[id];
              files == old(files)[id := if unlinks then PurgedEntry(e) else e.(state := ActiveFile)]
    {
      UnlinkFile(id, unlinks);
      done := false;
      if unlinks {
        done := FinalizeRow(id, token);
      } else {
        ReleaseRow(id, token);
      }
    }

    /** recover_purge_claims with nobody else at work: stale claims are finished, or renewed for the next recovery. */
    method RecoverPurgeClaims(now: int, lease: int, newToken: Id -> nat, refusing: set<Id>) returns (recovered: set<Id>)
      modifies this
      ensures recovered == set id | id in old(files) && old(files)[id].state.Claimed? && old(files)[id].state.at < now - lease && id !in refusing
      ensures files == map id | id in old(files) ::
                         if id in recovered then PurgedEntry(old(files)[id])
                         else if old(files)[id].state.Claimed? && old(files)[id].state.at < now - lease
                           then old(files)[id].(state := Claimed(newToken(id), now))
                         else old(files)[id]
    {
      var staleBefore := now - lease;
      var stale := set id | id in files && files[id].state.Claimed? && files[id].state.at < staleBefore;
      recovered := {};
      var todo := stale;
      while todo != {}
        invariant todo <= stale && files.Keys == old(files).Keys
        invariant recovered == set id | id in stale - todo && id !in refusing
        invariant forall id :: id in files && id in todo ==> files[id] == old(files)[id]
        invariant forall id :: id in files && id !in todo ==>
                    files[id] == if id !in stale then old(files)[id]
                                 else if id in refusing then old(files)[id].(state := Claimed(newToken(id), now))
                                 else PurgedEntry(old(files)[id])
        decreases |todo|
      {
        var id :| id in todo;
        todo := todo - {id};
        var done := RecoverClaim(id, staleBefore, now, newToken(id), id !in refusing);
        if done {
          recovered := recovered + {id};
        }
      }
    }

    method RecoverClaim(id: Id, staleBefore: int, now: int, token: nat, unlinks: bool) returns (done: bool)
      requires id in files && files[id].state.Claimed? && files[id].state.at < staleBefore
      modifies this
      ensures done == unlinks
      ensures var e := old(files)[id];
              files == old(files)[id := if unlinks then PurgedEntry(e) else e.(state := Claimed(token, now))]
    {
      var won := TakeOverRow(id, files[id].state.token, staleBefore, token, now);
      UnlinkFile(id, unlinks);
      done := false;
      if unlinks {
        done := FinalizeRow(id, token);
      }
    }
  }
}
