/**
 Restart reconciliation (scheduler/reconcile.py): every running task whose process is gone is
 routed on, and what its last worker held is fenced and closed.
 */
module Reconcile {
  import opened Wrappers
  import opened States
  import opened Store
  import opened ExecutionLease
  import opened Sets
  import StoreRuns

  /** Which sessions are alive, where each candidate branch points, and what its worktree has uncommitted. */
  datatype World = World(
    alive: Value -> bool, candidate: TaskId -> Option<string>, uncommitted: TaskId -> Option<string>)

  function Session(row: TaskRow): Value {
    if SessionId in row.cols then row.cols[SessionId] else Null
  }

  function Current(row: TaskRow): Option<AttemptId> {
    if CurrentAttemptId in row.cols && row.cols[CurrentAttemptId].Int? && row.cols[CurrentAttemptId].i >= 0
    then Some(row.cols[CurrentAttemptId].i) else None
  }

  function ShaField(sha: Option<string>): Fields {
    if sha.Some? && sha.value != "" then map[CandidateSha := Text(sha.value)] else map[]
  }

  /** The candidate an attempt has recorded. */
  function RecordedSha(db: Db, c: Option<AttemptId>): Option<string> {
    if c.Some? && c.value in db.attempts && CandidateSha in db.attempts[c.value].cols
       && db.attempts[c.value].cols[CandidateSha].Text?
    then Some(db.attempts[c.value].cols[CandidateSha].s) else None
  }

  predicate Selected(db: Db, id: TaskId) {
    id in db.tasks && db.tasks[id].state in {Running, Verifying}
  }

  /** A running task whose session is not alive. */
  predicate Dead(row: TaskRow, w: World) {
    row.state == Running && !w.alive(Session(row))
  }

  // ---------------------------------------------------------------- reads of the log

  predicate IsClaim(e: Event, id: TaskId, c: Option<AttemptId>) {
    e.taskId == Some(id) && e.fact.Audit? && e.fact.audit.DoneClaimed?
    && (e.fact.audit.claimedBy.None? || e.fact.audit.claimedBy == c)
  }

  /** The seq of the newest done claim of the attempt; a claim without an attempt counts. */
  function DoneClaim(log: seq<Event>, id: TaskId, c: Option<AttemptId>): Option<nat> {
    if log == [] then None
    else if IsClaim(log[|log| - 1], id, c) then Some(|log|)
    else DoneClaim(log[..|log| - 1], id, c)
  }

  function Count(log: seq<Event>, id: TaskId, fact: AuditFact): nat {
    if log == [] then 0
    else Count(log[..|log| - 1], id, fact)
         + if log[|log| - 1].taskId == Some(id) && log[|log| - 1].fact == Audit(fact) then 1 else 0
  }

  /** worker.slot_acquired without any worker.slot_released. */
  predicate SlotOpen(log: seq<Event>, id: TaskId, a: AttemptId) {
    Count(log, id, SlotAcquired(a)) > 0 && Count(log, id, SlotReleased(a)) == 0
  }

  // ---------------------------------------------------------------- one row

  /** _recover_orphaned_lease */
  function RecoverLease(db: Db, c: Option<AttemptId>, reason: string, now: Time): Db
    requires OneActive(db.leases)
  {
    if c.None? then db
    else match ActiveLease(db.leases, c.value)
      case None => db
      case Some(l) => RecoverStep(db, c.value, l, db.leases[l].generation, reason, now).0
  }

  /** _close_orphaned_slot */
  function CloseSlot(db: Db, id: TaskId, c: Option<AttemptId>, now: Time): Db {
    if c.Some? && SlotOpen(db.log, id, c.value) then AppendEvent(db, Some(id), SlotReleased(c.value), now) else db
  }

  const INTERRUPTED := "interrupted"

  /** The loop body of reconcile; the error is update_attempt refusing an unknown attempt. */
  function RowStep(db: Db, id: TaskId, w: World, now: Time): (Db, Option<StoreError>)
    requires Fenced(db) && id in db.tasks
  {
    FencedHasOneActive(db);
    var row := db.tasks[id];
    var c := Current(row);
    if row.state == Running && w.alive(Session(row)) then (db, None)
    else if row.state == Verifying then (CloseSlot(RecoverLease(db, c, "reconciled_verifying", now), id, c, now), None)
    else match DoneClaim(db.log, id, c)
      case Some(k) =>
        var closed := CloseSlot(RecoverLease(db, c, "reconciled_done_claim", now), id, c, now);
        var sha := RecordedSha(closed, c);
        (Transition(closed, id, Verifying, k, ShaField(sha), now).0, None)
      case None =>
        var exited := AppendEvent(RecoverLease(db, c, "reconciled_worker_exit", now), Some(id), WorkerExited(c), now);
        if c.Some? && c.value !in exited.attempts then (exited, Some(UnknownAttempt))
        else
          var noted := if c.Some? then UpdateAttempt(exited, c.value, Interruption(w, id, now), now).0 else exited;
          var moved := Transition(noted, id, State.Triage, |exited.log|, ShaField(w.candidate(id)), now).0;
          (CloseSlot(moved, id, c, now), None)
  }

  /** What the attempt of a dead worker keeps. */
  function Interruption(w: World, id: TaskId, now: Time): Fields {
    map[WorkerEndedAt := Int(now), CandidateSha := OrNull(w.candidate(id)), WorkerDirty := OrNull(w.uncommitted(id)),
        FailureCause := Text("worker.exited"), Disposition := Text(INTERRUPTED)]
  }

  lemma InterruptionIsAccepted(db: Db, a: AttemptId, w: World, id: TaskId, now: Time)
    ensures UpdateError(db, a, Interruption(w, id, now)) == if a in db.attempts then None else Some(UnknownAttempt)
  {
    assert Disposition in Interruption(w, id, now);
  }

  // ---------------------------------------------------------------- what one row changes

  lemma LogAppend(log: seq<Event>, e: Event)
    ensures forall id: TaskId, c: Option<AttemptId> :: DoneClaim(log + [e], id, c)
                            == if IsClaim(e, id, c) then Some(|log| + 1) else DoneClaim(log, id, c)
    ensures forall id: TaskId, f: AuditFact :: Count(log + [e], id, f)
                            == Count(log, id, f) + if e.taskId == Some(id) && e.fact == Audit(f) then 1 else 0
  {
    assert (log + [e])[..|log|] == log;
  }

  /** The two logs agree on every done claim and on every slot event. */
  ghost predicate SameFacts(before: seq<Event>, after: seq<Event>) {
    && (forall id: TaskId, c: Option<AttemptId> :: DoneClaim(after, id, c) == DoneClaim(before, id, c))
    && (forall id: TaskId, a: AttemptId :: Count(after, id, SlotAcquired(a)) == Count(before, id, SlotAcquired(a)))
    && (forall id: TaskId, a: AttemptId :: Count(after, id, SlotReleased(a)) == Count(before, id, SlotReleased(a)))
  }

  predicate Ordinary(e: Event) {
    !e.fact.Audit? || !(e.fact.audit.DoneClaimed? || e.fact.audit.SlotAcquired? || e.fact.audit.SlotReleased?)
  }

  lemma OrdinaryAppend(log: seq<Event>, e: Event)
    requires Ordinary(e)
    ensures SameFacts(log, log + [e])
  {
    LogAppend(log, e);
  }

  lemma NotBlank(s: string)
    requires s != "" && s[0] !in " \t\n\r"
    ensures !Blank(s)
  {
    assert s[0] in s;
  }

  /** No active lease of this attempt. */
  ghost predicate Fallow(leases: map<LeaseId, Lease>, a: AttemptId) {
    forall l :: !IsActiveFor(leases, a, l)
  }

  lemma RecoverLeaseEffect(db: Db, c: Option<AttemptId>, reason: string, now: Time)
    requires Fenced(db) && !Blank(reason)
    ensures OneActive(db.leases)
    ensures var after := RecoverLease(db, c, reason, now);
      && Fenced(after) && Monotone(db, after) && after.tasks == db.tasks && after.attempts == db.attempts
      && db.log <= after.log && SameFacts(db.log, after.log)
      && (c.Some? ==> Fallow(after.leases, c.value))
      && (forall a | Fallow(db.leases, a) :: Fallow(after.leases, a))
      && ((c.None? || Fallow(db.leases, c.value)) ==> after == db)
  {
    FencedHasOneActive(db);
    var after := RecoverLease(db, c, reason, now);
    if c.Some? {
      var l := ActiveLease(db.leases, c.value);
      if l.Some? {
        var g := db.leases[l.value].generation;
        assert HasGeneration(db.leases, c.value, g);
        RecoverKeeps(db, c.value, l.value, g, reason, now);
        assert after.log == db.log + [after.log[|db.log|]];
        OrdinaryAppend(db.log, after.log[|db.log|]);
        forall i ensures !IsActiveFor(after.leases, c.value, i) {
          assert IsActiveFor(db.leases, c.value, i) ==> i == l.value;
        }
        forall a, i | Fallow(db.leases, a) ensures !IsActiveFor(after.leases, a, i) {
          assert !IsActiveFor(db.leases, a, i);
        }
      }
    }
  }

  /** Slot releases of other tasks and attempts are as before; the named one gained one event if its slot was open. */
  ghost predicate ClosedOnce(before: seq<Event>, after: seq<Event>, id: TaskId, c: Option<AttemptId>) {
    && (forall j: TaskId, d: Option<AttemptId> :: DoneClaim(after, j, d) == DoneClaim(before, j, d))
    && (forall j: TaskId, a: AttemptId :: Count(after, j, SlotAcquired(a)) == Count(before, j, SlotAcquired(a)))
    && (forall j: TaskId, a: AttemptId :: Count(after, j, SlotReleased(a)) == Count(before, j, SlotReleased(a))
          + if j == id && c == Some(a) && SlotOpen(before, id, a) then 1 else 0)
  }

  lemma CloseSlotEffect(db: Db, id: TaskId, c: Option<AttemptId>, now: Time)
    ensures var after := CloseSlot(db, id, c, now);
      && after == db.(log := after.log) && db.log <= after.log && ClosedOnce(db.log, after.log, id, c)
      && (c.Some? ==> !SlotOpen(after.log, id, c.value))
      && ((c.None? || !SlotOpen(db.log, id, c.value)) ==> after == db)
  {
    if c.Some? && SlotOpen(db.log, id, c.value) {
      LogAppend(db.log, Event(now, Some(id), Audit(SlotReleased(c.value))));
    }
  }

  /** The same task, perhaps in another state and with another candidate. */
  predicate SameSession(before: TaskRow, after: TaskRow) {
    before.id == after.id && Session(after) == Session(before) && Current(after) == Current(before)
  }

  lemma MoveEffect(db: Db, id: TaskId, to: State, cause: nat, sha: Option<string>, now: Time)
    requires id in db.tasks && Legal(db.tasks[id].state, to)
    ensures var after := Transition(db, id, to, cause, ShaField(sha), now).0;
      && after == db.(tasks := after.tasks, log := after.log) && after.tasks.Keys == db.tasks.Keys
      && (forall j | j in db.tasks && j != id :: after.tasks[j] == db.tasks[j])
      && after.tasks[id].state == to && SameSession(db.tasks[id], after.tasks[id])
      && (sha.Some? && sha.value != "" ==>
          CandidateSha in after.tasks[id].cols && after.tasks[id].cols[CandidateSha] == Text(sha.value))
      && db.log <= after.log && SameFacts(db.log, after.log)
  {
    var after := Transition(db, id, to, cause, ShaField(sha), now).0;
    OrdinaryAppend(db.log, after.log[|db.log|]);
  }

  /** Where reconciliation sends a task. */
  function Expected(db: Db, id: TaskId, w: World): State
    requires id in db.tasks
  {
    var row := db.tasks[id];
    if !Dead(row, w) then row.state
    else if DoneClaim(db.log, id, Current(row)).Some? then Verifying
    else State.Triage
  }

  /** What one step does to the task itself. */
  ghost predicate Routed(db: Db, after: Db, id: TaskId, w: World)
    requires id in db.tasks
  {
    var row := db.tasks[id];
    && id in after.tasks && after.tasks[id].state == Expected(db, id, w) && SameSession(row, after.tasks[id])
    && (if row.state == Running && !Dead(row, w) then after == db
        else
          && ClosedOnce(db.log, after.log, id, Current(row))
          && (Current(row).Some? ==> Fallow(after.leases, Current(row).value)
                                     && !SlotOpen(after.log, id, Current(row).value)))
  }

  /** What one step leaves alone. */
  ghost predicate Apart(db: Db, after: Db, id: TaskId) {
    && after.tasks.Keys == db.tasks.Keys && after.deps == db.deps && after.attempts.Keys == db.attempts.Keys
    && db.log <= after.log && Fenced(after) && Monotone(db, after)
    && (forall j | j in db.tasks && j != id :: after.tasks[j] == db.tasks[j])
    && (forall a | Fallow(db.leases, a) :: Fallow(after.leases, a))
  }

  lemma Compose(l0: seq<Event>, l1: seq<Event>, l2: seq<Event>, id: TaskId, c: Option<AttemptId>)
    requires l0 <= l1 <= l2
    ensures SameFacts(l0, l1) && ClosedOnce(l1, l2, id, c) ==> ClosedOnce(l0, l2, id, c)
    ensures ClosedOnce(l0, l1, id, c) && SameFacts(l1, l2) ==> ClosedOnce(l0, l2, id, c)
    ensures SameFacts(l0, l1) && SameFacts(l1, l2) ==> SameFacts(l0, l2)
    ensures SameFacts(l1, l2) && c.Some? ==> SlotOpen(l1, id, c.value) == SlotOpen(l2, id, c.value)
  {
  }

  /** The tables hold what they held, but for leases taken out of active. */
  ghost predicate Shed(db: Db, after: Db) {
    && after.tasks == db.tasks && after.deps == db.deps && after.attempts.Keys == db.attempts.Keys
    && db.log <= after.log && Fenced(after) && Monotone(db, after)
    && (forall a | Fallow(db.leases, a) :: Fallow(after.leases, a))
  }

  /** Fencing the lease, then closing the slot. */
  function Clear(db: Db, id: TaskId, c: Option<AttemptId>, reason: string, now: Time): Db
    requires OneActive(db.leases)
  {
    CloseSlot(RecoverLease(db, c, reason, now), id, c, now)
  }

  lemma ClearEffect(db: Db, id: TaskId, c: Option<AttemptId>, reason: string, now: Time)
    requires Fenced(db) && !Blank(reason)
    ensures OneActive(db.leases)
    ensures var after := Clear(db, id, c, reason, now);
      && Shed(db, after) && ClosedOnce(db.log, after.log, id, c)
      && (c.Some? ==> Fallow(after.leases, c.value) && !SlotOpen(after.log, id, c.value))
  {
    RecoverLeaseEffect(db, c, reason, now);
    var fenced := RecoverLease(db, c, reason, now);
    CloseSlotEffect(fenced, id, c, now);
    Compose(db.log, fenced.log, CloseSlot(fenced, id, c, now).log, id, c);
  }

  lemma VerifyingRow(db: Db, id: TaskId, w: World, now: Time)
    requires Fenced(db) && id in db.tasks && db.tasks[id].state == Verifying
    ensures RowStep(db, id, w, now).1.None?
    ensures Routed(db, RowStep(db, id, w, now).0, id, w) && Apart(db, RowStep(db, id, w, now).0, id)
  {
    NotBlank("reconciled_verifying");
    ClearEffect(db, id, Current(db.tasks[id]), "reconciled_verifying", now);
  }

  /** A state write after the clearing completes the routing. */
  lemma MovedRow(db: Db, shed: Db, after: Db, id: TaskId, w: World)
    requires id in db.tasks && Shed(db, shed) && Dead(db.tasks[id], w)
    requires after == shed.(tasks := after.tasks, log := after.log) && after.tasks.Keys == db.tasks.Keys
    requires forall j | j in db.tasks && j != id :: after.tasks[j] == db.tasks[j]
    requires after.tasks[id].state == Expected(db, id, w) && SameSession(db.tasks[id], after.tasks[id])
    requires shed.log <= after.log && ClosedOnce(db.log, after.log, id, Current(db.tasks[id]))
    requires Current(db.tasks[id]).Some? ==>
      Fallow(shed.leases, Current(db.tasks[id]).value) && !SlotOpen(after.log, id, Current(db.tasks[id]).value)
    ensures Routed(db, after, id, w) && Apart(db, after, id)
  {
  }

  lemma ClaimedRow(db: Db, id: TaskId, w: World, now: Time)
    requires Fenced(db) && id in db.tasks && Dead(db.tasks[id], w)
    requires DoneClaim(db.log, id, Current(db.tasks[id])).Some?
    ensures RowStep(db, id, w, now).1.None?
    ensures Routed(db, RowStep(db, id, w, now).0, id, w) && Apart(db, RowStep(db, id, w, now).0, id)
  {
    var c := Current(db.tasks[id]);
    NotBlank("reconciled_done_claim");
    ClearEffect(db, id, c, "reconciled_done_claim", now);
    var closed := Clear(db, id, c, "reconciled_done_claim", now);
    var sha := RecordedSha(closed, c);
    MoveEffect(closed, id, Verifying, DoneClaim(db.log, id, c).value, sha, now);
    var after := RowStep(db, id, w, now).0;
    Compose(db.log, closed.log, after.log, id, c);
    MovedRow(db, closed, after, id, w);
  }

  lemma NoteLog(db: Db, a: AttemptId, w: World, id: TaskId, now: Time)
    requires a in db.attempts
    ensures var after := UpdateAttempt(db, a, Interruption(w, id, now), now).0;
      && after == db.(attempts := after.attempts, log := after.log) && after.attempts.Keys == db.attempts.Keys
      && db.log <= after.log && SameFacts(db.log, after.log)
  {
    InterruptionIsAccepted(db, a, w, id, now);
    OrdinaryAppend(db.log, Event(now, Some(db.attempts[a].taskId), Audit(AttemptUpdated(a, Interruption(w, id, now)))));
  }

  /** The exit event and the attempt update of a dead task without a claim. */
  lemma ExitNoted(db: Db, fenced: Db, exited: Db, noted: Db, id: TaskId, c: Option<AttemptId>, w: World, now: Time)
    requires Fenced(fenced) && Shed(db, fenced) && SameFacts(db.log, fenced.log)
    requires exited == AppendEvent(fenced, Some(id), WorkerExited(c), now)
    requires c.Some? ==> c.value in exited.attempts
    requires noted == if c.Some? then UpdateAttempt(exited, c.value, Interruption(w, id, now), now).0 else exited
    ensures Shed(db, noted) && SameFacts(db.log, noted.log) && noted.leases == fenced.leases
  {
    OrdinaryAppend(fenced.log, exited.log[|fenced.log|]);
    Compose(db.log, fenced.log, exited.log, id, c);
    if c.Some? {
      NoteLog(exited, c.value, w, id, now);
      Compose(db.log, exited.log, noted.log, id, c);
    }
  }

  /** The error case included: it stops after the exit event, with the task still running. */
  lemma ExitedRow(db: Db, id: TaskId, w: World, now: Time)
    requires Fenced(db) && id in db.tasks && Dead(db.tasks[id], w)
    requires DoneClaim(db.log, id, Current(db.tasks[id])).None?
    ensures Apart(db, RowStep(db, id, w, now).0, id)
    ensures RowStep(db, id, w, now).1.Some? <==> Refused(db, id, w)
    ensures !Refused(db, id, w) ==> Routed(db, RowStep(db, id, w, now).0, id, w)
  {
    var c := Current(db.tasks[id]);
    NotBlank("reconciled_worker_exit");
    RecoverLeaseEffect(db, c, "reconciled_worker_exit", now);
    if !Refused(db, id, w) {
      ExitedRowMoves(db, id, w, now);
    }
  }

  lemma ExitedRowMoves(db: Db, id: TaskId, w: World, now: Time)
    requires Fenced(db) && id in db.tasks && Dead(db.tasks[id], w) && !Refused(db, id, w)
    requires DoneClaim(db.log, id, Current(db.tasks[id])).None?
    ensures Apart(db, RowStep(db, id, w, now).0, id) && Routed(db, RowStep(db, id, w, now).0, id, w)
  {
    var c := Current(db.tasks[id]);
    NotBlank("reconciled_worker_exit");
    RecoverLeaseEffect(db, c, "reconciled_worker_exit", now);
    var fenced := RecoverLease(db, c, "reconciled_worker_exit", now);
    var exited := AppendEvent(fenced, Some(id), WorkerExited(c), now);
    var noted := if c.Some? then UpdateAttempt(exited, c.value, Interruption(w, id, now), now).0 else exited;
    ExitNoted(db, fenced, exited, noted, id, c, w, now);
    ExitMoved(db, noted, |exited.log|, id, w, now);
  }

  lemma ExitMoved(db: Db, noted: Db, cause: nat, id: TaskId, w: World, now: Time)
    requires id in db.tasks && Dead(db.tasks[id], w) && Expected(db, id, w) == State.Triage
    requires Shed(db, noted) && SameFacts(db.log, noted.log)
    requires Current(db.tasks[id]).Some? ==> Fallow(noted.leases, Current(db.tasks[id]).value)
    ensures var moved := Transition(noted, id, State.Triage, cause, ShaField(w.candidate(id)), now).0;
      var after := CloseSlot(moved, id, Current(db.tasks[id]), now);
      Routed(db, after, id, w) && Apart(db, after, id)
  {
    var c := Current(db.tasks[id]);
    MoveEffect(noted, id, State.Triage, cause, w.candidate(id), now);
    var moved := Transition(noted, id, State.Triage, cause, ShaField(w.candidate(id)), now).0;
    Compose(db.log, noted.log, moved.log, id, c);
    CloseSlotEffect(moved, id, c, now);
    var after := CloseSlot(moved, id, c, now);
    Compose(db.log, moved.log, after.log, id, c);
    MovedRow(db, noted, after, id, w);
  }

  lemma RowEffect(db: Db, id: TaskId, w: World, now: Time)
    requires Fenced(db) && Selected(db, id)
    ensures var (after, error) := RowStep(db, id, w, now);
      && Apart(db, after, id)
      && (error.Some? <==> Refused(db, id, w))
      && (error.None? ==> Routed(db, after, id, w))
  {
    if db.tasks[id].state == Verifying {
      VerifyingRow(db, id, w, now);
    } else if Dead(db.tasks[id], w) {
      if DoneClaim(db.log, id, Current(db.tasks[id])).Some? {
        ClaimedRow(db, id, w, now);
      } else {
        ExitedRow(db, id, w, now);
      }
    }
  }

  /** The dead task names an attempt the attempts table does not have. */
  predicate Refused(db: Db, id: TaskId, w: World)
    requires id in db.tasks
  {
    Dead(db.tasks[id], w) && DoneClaim(db.log, id, Current(db.tasks[id])).None?
    && Current(db.tasks[id]).Some? && Current(db.tasks[id]).value !in db.attempts
  }

  // ---------------------------------------------------------------- what one row leaves alone

  /** The lease that was active for the attempt is recovered and keeps its holder; every other lease is as before. */
  ghost predicate FencedOnly(before: map<LeaseId, Lease>, after: map<LeaseId, Lease>, c: Option<AttemptId>,
                             reason: string, now: Time)
  {
    && after.Keys == before.Keys
    && forall l | l in before ::
         after[l] == if c.Some? && IsActiveFor(before, c.value, l)
                     then before[l].(status := Recovered, releasedAt := Some(now), releaseReason := Some(reason),
                                     updatedAt := now)
                     else before[l]
  }

  /** Why the lease of a row is recovered. */
  function Why(db: Db, id: TaskId): string
    requires id in db.tasks
  {
    if db.tasks[id].state == Verifying then "reconciled_verifying"
    else if DoneClaim(db.log, id, Current(db.tasks[id])).Some? then "reconciled_done_claim"
    else "reconciled_worker_exit"
  }

  lemma RecoverFences(db: Db, c: Option<AttemptId>, reason: string, now: Time)
    requires Fenced(db) && !Blank(reason)
    ensures OneActive(db.leases) && FencedOnly(db.leases, RecoverLease(db, c, reason, now).leases, c, reason, now)
  {
    FencedHasOneActive(db);
    if c.Some? {
      var l := ActiveLease(db.leases, c.value);
      if l.Some? {
        assert HasGeneration(db.leases, c.value, db.leases[l.value].generation);
        assert forall i | IsActiveFor(db.leases, c.value, i) :: i == l.value;
      }
    }
  }

  /** The rows whose worker reconciliation has to clear up after. */
  predicate Orphaned(db: Db, id: TaskId, w: World) {
    id in db.tasks && (db.tasks[id].state == Verifying || Dead(db.tasks[id], w))
  }

  function OrphanedAttempt(db: Db, id: TaskId, w: World): Option<AttemptId> {
    if Orphaned(db, id, w) then Current(db.tasks[id]) else None
  }

  /** The dead task `id` left without a claim, with `a` as its current attempt. */
  predicate Exits(db: Db, id: TaskId, a: AttemptId, w: World) {
    id in db.tasks && Dead(db.tasks[id], w) && Current(db.tasks[id]) == Some(a)
    && DoneClaim(db.log, id, Some(a)).None?
  }

  /** The same row but for its state, its last update and its candidate. */
  predicate SameButCandidate(before: TaskRow, after: TaskRow) {
    after.id == before.id && after.createdAt == before.createdAt
    && after.cols - {CandidateSha} == before.cols - {CandidateSha}
  }

  lemma RecoverTables(db: Db, c: Option<AttemptId>, reason: string, now: Time)
    requires Fenced(db)
    ensures OneActive(db.leases)
    ensures var after := RecoverLease(db, c, reason, now);
      after == db.(leases := after.leases, log := after.log)
  {
    FencedHasOneActive(db);
  }

  lemma CloseTables(db: Db, id: TaskId, c: Option<AttemptId>, now: Time)
    ensures CloseSlot(db, id, c, now) == db.(log := CloseSlot(db, id, c, now).log)
  {
  }

  lemma MoveTables(db: Db, id: TaskId, to: State, cause: nat, sha: Option<string>, now: Time)
    requires id in db.tasks && Legal(db.tasks[id].state, to)
    ensures var after := Transition(db, id, to, cause, ShaField(sha), now).0;
      && after == db.(tasks := db.tasks[id := after.tasks[id]], log := after.log)
      && SameButCandidate(db.tasks[id], after.tasks[id])
  {
    var cols := db.tasks[id].cols;
    assert (cols + ShaField(sha)) - {CandidateSha} == cols - {CandidateSha};
  }

  /** What one row does to the tables: the leases are those of a recovery, and the rest is spelled out. */
  ghost predicate RowTables(db: Db, after: Db, id: TaskId, w: World, now: Time)
    requires id in db.tasks
  {
    && FencedOnly(db.leases, after.leases, OrphanedAttempt(db, id, w), Why(db, id), now)
    && after.attempts.Keys == db.attempts.Keys
    && (forall a | a in db.attempts ::
          if Exits(db, id, a, w)
          then ExitNotedOn(after, a, w, id, now) && SameButExit(db.attempts[a], after.attempts[a])
          else after.attempts[a] == db.attempts[a])
    && id in after.tasks
    && (if Dead(db.tasks[id], w) then SameButCandidate(db.tasks[id], after.tasks[id])
        else after.tasks[id] == db.tasks[id])
  }

  lemma VerifyingTables(db: Db, id: TaskId, w: World, now: Time)
    requires Fenced(db) && id in db.tasks && db.tasks[id].state == Verifying
    ensures RowTables(db, RowStep(db, id, w, now).0, id, w, now)
  {
    var c := Current(db.tasks[id]);
    NotBlank("reconciled_verifying");
    RecoverTables(db, c, "reconciled_verifying", now);
    RecoverFences(db, c, "reconciled_verifying", now);
    CloseTables(RecoverLease(db, c, "reconciled_verifying", now), id, c, now);
  }

  lemma ClaimedTables(db: Db, id: TaskId, w: World, now: Time)
    requires Fenced(db) && id in db.tasks && Dead(db.tasks[id], w)
    requires DoneClaim(db.log, id, Current(db.tasks[id])).Some?
    ensures RowTables(db, RowStep(db, id, w, now).0, id, w, now)
  {
    var c := Current(db.tasks[id]);
    NotBlank("reconciled_done_claim");
    RecoverTables(db, c, "reconciled_done_claim", now);
    RecoverFences(db, c, "reconciled_done_claim", now);
    var fenced := RecoverLease(db, c, "reconciled_done_claim", now);
    CloseTables(fenced, id, c, now);
    var closed := CloseSlot(fenced, id, c, now);
    MoveTables(closed, id, Verifying, DoneClaim(db.log, id, c).value, RecordedSha(closed, c), now);
  }

  /** Noting an exit on an attempt. */
  lemma NoteTables(db: Db, a: AttemptId, w: World, id: TaskId, now: Time)
    requires a in db.attempts
    ensures var after := UpdateAttempt(db, a, Interruption(w, id, now), now).0;
      && a in after.attempts
      && after == db.(attempts := db.attempts[a := after.attempts[a]], log := after.log)
      && ExitNotedOn(after, a, w, id, now) && SameButExit(db.attempts[a], after.attempts[a])
  {
    InterruptionIsAccepted(db, a, w, id, now);
    var before := db.attempts[a].cols;
    assert before - EXIT_COLUMNS == (before + Interruption(w, id, now)) - EXIT_COLUMNS;
  }

  lemma ExitedTables(db: Db, id: TaskId, w: World, now: Time)
    requires Fenced(db) && id in db.tasks && Dead(db.tasks[id], w) && !Refused(db, id, w)
    requires DoneClaim(db.log, id, Current(db.tasks[id])).None?
    ensures RowTables(db, RowStep(db, id, w, now).0, id, w, now)
  {
    var c := Current(db.tasks[id]);
    NotBlank("reconciled_worker_exit");
    RecoverTables(db, c, "reconciled_worker_exit", now);
    RecoverFences(db, c, "reconciled_worker_exit", now);
    var exited := AppendEvent(RecoverLease(db, c, "reconciled_worker_exit", now), Some(id), WorkerExited(c), now);
    ExitTables(exited, id, c, w, now);
  }

  /** The writes after the exit event leave leases, other attempts and other columns alone. */
  lemma ExitTables(exited: Db, id: TaskId, c: Option<AttemptId>, w: World, now: Time)
    requires id in exited.tasks && exited.tasks[id].state == Running
    requires c.Some? ==> c.value in exited.attempts
    ensures var noted := if c.Some? then UpdateAttempt(exited, c.value, Interruption(w, id, now), now).0 else exited;
      var moved := Transition(noted, id, State.Triage, |exited.log|, ShaField(w.candidate(id)), now).0;
      var after := CloseSlot(moved, id, c, now);
      && after.leases == exited.leases && after.attempts.Keys == exited.attempts.Keys
      && (forall a | a in exited.attempts && c != Some(a) :: after.attempts[a] == exited.attempts[a])
      && (c.Some? ==> ExitNotedOn(after, c.value, w, id, now)
                      && SameButExit(exited.attempts[c.value], after.attempts[c.value]))
      && id in after.tasks && SameButCandidate(exited.tasks[id], after.tasks[id])
  {
    if c.Some? {
      NoteTables(exited, c.value, w, id, now);
    }
    var noted := if c.Some? then UpdateAttempt(exited, c.value, Interruption(w, id, now), now).0 else exited;
    MoveTables(noted, id, State.Triage, |exited.log|, w.candidate(id), now);
    CloseTables(Transition(noted, id, State.Triage, |exited.log|, ShaField(w.candidate(id)), now).0, id, c, now);
  }

  lemma TablesOfRow(db: Db, id: TaskId, w: World, now: Time)
    requires Fenced(db) && Selected(db, id) && !Refused(db, id, w)
    ensures RowTables(db, RowStep(db, id, w, now).0, id, w, now)
  {
    if db.tasks[id].state == Verifying {
      VerifyingTables(db, id, w, now);
    } else if Dead(db.tasks[id], w) {
      if DoneClaim(db.log, id, Current(db.tasks[id])).Some? {
        ClaimedTables(db, id, w, now);
      } else {
        ExitedTables(db, id, w, now);
      }
    }
  }

  // ---------------------------------------------------------------- what one row records

  /** The claim found is a claim of this attempt, and no later event is one. */
  lemma {:induction false} ClaimIsNewest(log: seq<Event>, id: TaskId, c: Option<AttemptId>)
    ensures match DoneClaim(log, id, c)
            case None => forall i | 0 <= i < |log| :: !IsClaim(log[i], id, c)
            case Some(k) => 1 <= k <= |log| && IsClaim(log[k - 1], id, c)
                            && forall i | k <= i < |log| :: !IsClaim(log[i], id, c)
  {
    if log != [] && !IsClaim(log[|log| - 1], id, c) {
      ClaimIsNewest(log[..|log| - 1], id, c);
    }
  }

  /** A legal move writes one state change. */
  lemma MoveLog(db: Db, id: TaskId, to: State, cause: nat, sha: Option<string>, now: Time)
    requires id in db.tasks && Legal(db.tasks[id].state, to)
    ensures Transition(db, id, to, cause, ShaField(sha), now).0.log
      == db.log + [Event(now, Some(id), StateChanged(db.tasks[id].state, to, cause, ShaField(sha)))]
  {
  }

  predicate CausedBy(e: Event, id: TaskId, to: State, cause: nat) {
    e.taskId == Some(id) && e.fact.StateChanged? && e.fact.frm == Running && e.fact.to == to && e.fact.causeSeq == cause
  }

  /** A dead task goes to verifying on the word of its newest done claim. */
  lemma ClaimedRowCause(db: Db, id: TaskId, w: World, now: Time)
    requires Fenced(db) && id in db.tasks && Dead(db.tasks[id], w)
    requires DoneClaim(db.log, id, Current(db.tasks[id])).Some?
    ensures var log := RowStep(db, id, w, now).0.log;
      |log| > |db.log|
      && CausedBy(log[|log| - 1], id, Verifying, DoneClaim(db.log, id, Current(db.tasks[id])).value)
  {
    var c := Current(db.tasks[id]);
    NotBlank("reconciled_done_claim");
    ClearLog(db, id, c, "reconciled_done_claim", now);
    var closed := Clear(db, id, c, "reconciled_done_claim", now);
    MoveLog(closed, id, Verifying, DoneClaim(db.log, id, c).value, RecordedSha(closed, c), now);
  }

  /** Clearing only adds to the log and leaves the task rows alone. */
  lemma ClearLog(db: Db, id: TaskId, c: Option<AttemptId>, reason: string, now: Time)
    requires Fenced(db) && !Blank(reason)
    ensures OneActive(db.leases)
    ensures var after := Clear(db, id, c, reason, now); after.tasks == db.tasks && db.log <= after.log
  {
    ClearEffect(db, id, c, reason, now);
  }

  /** A recorded exit, and the state change it caused. */
  ghost predicate ExitRecorded(before: seq<Event>, log: seq<Event>, id: TaskId, c: Option<AttemptId>,
                               sha: Option<string>)
  {
    exists s, i | |before| < s <= i < |log| ::
      log[s - 1].taskId == Some(id) && log[s - 1].fact == Audit(WorkerExited(c))
      && log[i].taskId == Some(id) && log[i].fact == StateChanged(Running, State.Triage, s, ShaField(sha))
  }

  predicate Holds(cols: Fields, c: Column, v: Value) {
    c in cols && cols[c] == v
  }

  /** The text of an optional string, NULL for none. */
  predicate HoldsText(cols: Fields, c: Column, v: Option<string>) {
    match v case None => Holds(cols, c, Null) case Some(s) => Holds(cols, c, Text(s))
  }

  /** The attempt keeps the exit: when and why it ended, its candidate, and what its worktree had uncommitted. */
  predicate ExitNotedOn(db: Db, a: AttemptId, w: World, id: TaskId, now: Time) {
    && a in db.attempts
    && var cols := db.attempts[a].cols;
       && Holds(cols, WorkerEndedAt, Int(now)) && HoldsText(cols, CandidateSha, w.candidate(id))
       && HoldsText(cols, WorkerDirty, w.uncommitted(id))
       && Holds(cols, FailureCause, Text("worker.exited")) && Holds(cols, Disposition, Text("interrupted"))
  }

  const EXIT_COLUMNS: set<Column> := {WorkerEndedAt, CandidateSha, WorkerDirty, FailureCause, Disposition}

  /** The same attempt but for those columns and its last update. */
  predicate SameButExit(before: Attempt, after: Attempt) {
    && after.taskId == before.taskId && after.attemptNo == before.attemptNo && after.createdAt == before.createdAt
    && after.cols - EXIT_COLUMNS == before.cols - EXIT_COLUMNS
  }

  /** The writes after the exit event. */
  lemma ExitMoves(exited: Db, id: TaskId, c: Option<AttemptId>, w: World, now: Time)
    requires id in exited.tasks && exited.tasks[id].state == Running
    requires c.Some? ==> c.value in exited.attempts
    ensures var noted := if c.Some? then UpdateAttempt(exited, c.value, Interruption(w, id, now), now).0 else exited;
      var moved := Transition(noted, id, State.Triage, |exited.log|, ShaField(w.candidate(id)), now).0;
      var after := CloseSlot(moved, id, c, now);
      && exited.log <= after.log
      && exists i | |exited.log| <= i < |after.log| ::
           after.log[i].taskId == Some(id)
           && after.log[i].fact == StateChanged(Running, State.Triage, |exited.log|, ShaField(w.candidate(id)))
  {
    if c.Some? {
      InterruptionIsAccepted(exited, c.value, w, id, now);
    }
    var noted := if c.Some? then UpdateAttempt(exited, c.value, Interruption(w, id, now), now).0 else exited;
    var moved := Transition(noted, id, State.Triage, |exited.log|, ShaField(w.candidate(id)), now).0;
    var after := CloseSlot(moved, id, c, now);
    assert after.log[|noted.log|].fact == StateChanged(Running, State.Triage, |exited.log|, ShaField(w.candidate(id)));
  }

  lemma ExitedRowTrace(db: Db, id: TaskId, w: World, now: Time)
    requires Fenced(db) && id in db.tasks && Dead(db.tasks[id], w)
    requires DoneClaim(db.log, id, Current(db.tasks[id])).None? && !Refused(db, id, w)
    ensures ExitRecorded(db.log, RowStep(db, id, w, now).0.log, id, Current(db.tasks[id]), w.candidate(id))
    ensures Current(db.tasks[id]).Some? ==>
      ExitNotedOn(RowStep(db, id, w, now).0, Current(db.tasks[id]).value, w, id, now)
  {
    var c := Current(db.tasks[id]);
    NotBlank("reconciled_worker_exit");
    RecoverLeaseEffect(db, c, "reconciled_worker_exit", now);
    var fenced := RecoverLease(db, c, "reconciled_worker_exit", now);
    var exited := AppendEvent(fenced, Some(id), WorkerExited(c), now);
    ExitMoves(exited, id, c, w, now);
    assert exited.log[|exited.log| - 1].fact == Audit(WorkerExited(c));
    ExitedTables(db, id, w, now);
    if c.Some? {
      assert Exits(db, id, c.value, w);
    }
  }

  // ---------------------------------------------------------------- the whole pass

  /** Rows that are running or verifying, each once, in whatever order. */
  ghost predicate Rows(db: Db, rows: seq<TaskId>) {
    NoDup(rows) && forall id :: id in rows ==> Selected(db, id)
  }

  /** The pass over the rows, stopping at the first error. */
  function Pass(db: Db, rows: seq<TaskId>, w: World, now: Time): (r: (Db, Option<StoreError>))
    requires Fenced(db) && Rows(db, rows)
    ensures Fenced(r.0) && r.0.tasks.Keys == db.tasks.Keys
    ensures forall j | j in db.tasks && j !in rows :: r.0.tasks[j] == db.tasks[j]
  {
    if rows == [] then (db, None)
    else
      ShorterRows(db, rows);
      var (before, error) := Pass(db, rows[..|rows| - 1], w, now);
      if error.Some? then (before, error)
      else
        RowEffect(before, rows[|rows| - 1], w, now);
        RowStep(before, rows[|rows| - 1], w, now)
  }

  lemma ShorterRows(db: Db, rows: seq<TaskId>)
    requires Rows(db, rows) && rows != []
    ensures Rows(db, rows[..|rows| - 1]) && rows[|rows| - 1] !in rows[..|rows| - 1]
    ensures Selected(db, rows[|rows| - 1])
  {
    assert rows[|rows| - 1] in rows;
  }

  predicate Closes(db: Db, id: TaskId, a: AttemptId, w: World) {
    Orphaned(db, id, w) && Current(db.tasks[id]) == Some(a) && SlotOpen(db.log, id, a)
  }

  /** What the pass promises about one of its rows. */
  ghost predicate Reconciled(db: Db, after: Db, id: TaskId, w: World)
    requires id in db.tasks
  {
    && id in after.tasks
    && after.tasks[id].state == Expected(db, id, w) && SameSession(db.tasks[id], after.tasks[id])
    && (!Orphaned(db, id, w) ==> after.tasks[id] == db.tasks[id])
    && (Orphaned(db, id, w) && Current(db.tasks[id]).Some? ==>
        Fallow(after.leases, Current(db.tasks[id]).value) && !SlotOpen(after.log, id, Current(db.tasks[id]).value))
  }

  /** Where the slot events of every task and attempt stand once the given rows are done. */
  ghost predicate SlotsAfter(db: Db, after: Db, rows: seq<TaskId>, w: World) {
    && (forall j: TaskId, d: Option<AttemptId> :: DoneClaim(after.log, j, d) == DoneClaim(db.log, j, d))
    && (forall j: TaskId, a: AttemptId :: Count(after.log, j, SlotAcquired(a)) == Count(db.log, j, SlotAcquired(a)))
    && (forall j: TaskId, a: AttemptId :: Count(after.log, j, SlotReleased(a))
          == Count(db.log, j, SlotReleased(a)) + if j in rows && Closes(db, j, a, w) then 1 else 0)
  }

  ghost predicate PassInv(db: Db, after: Db, rows: seq<TaskId>, w: World) {
    && after.tasks.Keys == db.tasks.Keys && after.attempts.Keys == db.attempts.Keys && Fenced(after)
    && db.log <= after.log
    && (forall j | j in db.tasks && j !in rows :: after.tasks[j] == db.tasks[j])
    && (forall j | j in rows :: j in db.tasks && Reconciled(db, after, j, w))
    && SlotsAfter(db, after, rows, w)
  }

  /** A row not yet done looks the same as at the start. */
  lemma RowAhead(db: Db, mid: Db, rows: seq<TaskId>, id: TaskId, w: World)
    requires PassInv(db, mid, rows, w) && Selected(db, id) && id !in rows
    ensures Selected(mid, id) && mid.tasks[id] == db.tasks[id]
    ensures Expected(mid, id, w) == Expected(db, id, w) && Refused(mid, id, w) == Refused(db, id, w)
    ensures Orphaned(mid, id, w) == Orphaned(db, id, w)
    ensures forall a :: SlotOpen(mid.log, id, a) == SlotOpen(db.log, id, a)
  {
  }

  /** The slot events of one task and attempt after one more row. */
  lemma SlotsAt(db: Db, mid: Db, after: Db, rows: seq<TaskId>, id: TaskId, w: World, j: TaskId, a: AttemptId)
    requires SlotsAfter(db, mid, rows, w) && id !in rows && Selected(mid, id) && Routed(mid, after, id, w)
    requires Closes(mid, id, a, w) == Closes(db, id, a, w)
    ensures Count(after.log, j, SlotReleased(a))
      == Count(db.log, j, SlotReleased(a)) + if j in rows + [id] && Closes(db, j, a, w) then 1 else 0
  {
    assert j in rows + [id] <==> j in rows || j == id;
  }

  lemma ReleasesStep(db: Db, mid: Db, after: Db, rows: seq<TaskId>, id: TaskId, w: World)
    requires SlotsAfter(db, mid, rows, w) && id !in rows && Selected(mid, id) && Routed(mid, after, id, w)
    requires forall a :: Closes(mid, id, a, w) == Closes(db, id, a, w)
    ensures forall j: TaskId, a: AttemptId ::
              Count(after.log, j, SlotReleased(a))
              == Count(db.log, j, SlotReleased(a)) + if j in rows + [id] && Closes(db, j, a, w) then 1 else 0
  {
    forall j: TaskId, a: AttemptId
      ensures Count(after.log, j, SlotReleased(a))
        == Count(db.log, j, SlotReleased(a)) + if j in rows + [id] && Closes(db, j, a, w) then 1 else 0
    {
      SlotsAt(db, mid, after, rows, id, w, j, a);
    }
  }

  /** Claims and acquisitions are never written by a row. */
  lemma ClaimsKept(mid: Db, after: Db, id: TaskId, w: World)
    requires id in mid.tasks && Routed(mid, after, id, w)
    ensures forall j: TaskId, d: Option<AttemptId> :: DoneClaim(after.log, j, d) == DoneClaim(mid.log, j, d)
    ensures forall j: TaskId, a: AttemptId :: Count(after.log, j, SlotAcquired(a)) == Count(mid.log, j, SlotAcquired(a))
  {
  }

  lemma SlotsStep(db: Db, mid: Db, after: Db, rows: seq<TaskId>, id: TaskId, w: World)
    requires PassInv(db, mid, rows, w) && Selected(db, id) && id !in rows
    requires Selected(mid, id) && Routed(mid, after, id, w)
    ensures SlotsAfter(db, after, rows + [id], w)
  {
    RowAhead(db, mid, rows, id, w);
    ClaimsKept(mid, after, id, w);
    ReleasesStep(db, mid, after, rows, id, w);
  }

  lemma RowsStep(db: Db, mid: Db, after: Db, rows: seq<TaskId>, id: TaskId, w: World)
    requires PassInv(db, mid, rows, w) && Selected(db, id) && id !in rows
    requires Selected(mid, id) && Routed(mid, after, id, w) && Apart(mid, after, id)
    ensures forall j | j in rows + [id] :: j in db.tasks && Reconciled(db, after, j, w)
  {
    RowAhead(db, mid, rows, id, w);
    forall j | j in rows + [id] ensures j in db.tasks && Reconciled(db, after, j, w) {
      if j != id {
        assert j in rows && Reconciled(db, mid, j, w);
        assert forall a :: SlotOpen(after.log, j, a) == SlotOpen(mid.log, j, a);
      }
    }
  }

  lemma {:induction false} PassReconciles(db: Db, rows: seq<TaskId>, w: World, now: Time)
    requires Fenced(db) && Rows(db, rows)
    ensures Pass(db, rows, w, now).1.None? <==> forall id | id in rows :: !Refused(db, id, w)
    ensures Pass(db, rows, w, now).1.None? ==> PassInv(db, Pass(db, rows, w, now).0, rows, w)
  {
    if rows != [] {
      ShorterRows(db, rows);
      var front, id := rows[..|rows| - 1], rows[|rows| - 1];
      assert rows == front + [id];
      PassReconciles(db, front, w, now);
      var (mid, error) := Pass(db, front, w, now);
      if error.None? {
        RowAhead(db, mid, front, id, w);
        RowEffect(mid, id, w, now);
        var after := RowStep(mid, id, w, now).0;
        if !Refused(db, id, w) {
          SlotsStep(db, mid, after, front, id, w);
          RowsStep(db, mid, after, front, id, w);
        }
      } else {
        var j :| j in front && Refused(db, j, w);
        assert j in rows;
      }
    }
  }

  /** The lease was active for the current attempt of an orphan among the rows. */
  predicate Fences(db: Db, rows: seq<TaskId>, w: World, l: LeaseId)
    requires l in db.leases
  {
    db.leases[l].status == Active
    && exists j | j in rows :: OrphanedAttempt(db, j, w) == Some(db.leases[l].attemptId)
  }

  /** Recovered now, by the same holder. */
  predicate RecoveredNow(before: Lease, after: Lease, now: Time) {
    after.status == Recovered && SameIdentity(before, after) && after.releasedAt == Some(now)
  }

  /** Exactly those leases are recovered, with their holders; every other lease is as before. */
  ghost predicate LeasesAfter(db: Db, after: Db, rows: seq<TaskId>, w: World, now: Time) {
    && after.leases.Keys == db.leases.Keys
    && forall l | l in db.leases ::
         if Fences(db, rows, w, l) then RecoveredNow(db.leases[l], after.leases[l], now)
         else after.leases[l] == db.leases[l]
  }

  /** The attempt notes the exit of one of the rows. */
  ghost predicate NotedFor(db: Db, after: Db, rows: seq<TaskId>, w: World, now: Time, a: AttemptId) {
    exists j | j in rows :: Exits(db, j, a, w) && ExitNotedOn(after, a, w, j, now)
  }

  predicate SomeExits(db: Db, rows: seq<TaskId>, w: World, a: AttemptId) {
    exists j | j in rows :: Exits(db, j, a, w)
  }

  /** Exactly the attempts of dead unclaimed rows note an exit; every other attempt is as before. */
  ghost predicate AttemptsAfter(db: Db, after: Db, rows: seq<TaskId>, w: World, now: Time) {
    && after.attempts.Keys == db.attempts.Keys
    && forall a | a in db.attempts ::
         if SomeExits(db, rows, w, a)
         then NotedFor(db, after, rows, w, now, a) && SameButExit(db.attempts[a], after.attempts[a])
         else after.attempts[a] == db.attempts[a]
  }

  /** A dead row keeps all but its state and candidate; every other row is as before. */
  ghost predicate TasksAfter(db: Db, after: Db, rows: seq<TaskId>, w: World) {
    && after.tasks.Keys == db.tasks.Keys && after.deps == db.deps
    && forall j | j in db.tasks ::
         if j in rows && Dead(db.tasks[j], w) then SameButCandidate(db.tasks[j], after.tasks[j])
         else after.tasks[j] == db.tasks[j]
  }

  lemma LeasesStep(db: Db, mid: Db, after: Db, rows: seq<TaskId>, id: TaskId, w: World, reason: string, now: Time)
    requires LeasesAfter(db, mid, rows, w, now)
    requires OrphanedAttempt(mid, id, w) == OrphanedAttempt(db, id, w)
    requires FencedOnly(mid.leases, after.leases, OrphanedAttempt(mid, id, w), reason, now)
    ensures LeasesAfter(db, after, rows + [id], w, now)
  {
    forall l | l in db.leases
      ensures if Fences(db, rows + [id], w, l) then RecoveredNow(db.leases[l], after.leases[l], now)
              else after.leases[l] == db.leases[l]
    {
      if Fences(db, rows, w, l) {
        var j :| j in rows && OrphanedAttempt(db, j, w) == Some(db.leases[l].attemptId);
        assert j in rows + [id];
      } else if db.leases[l].status == Active && OrphanedAttempt(db, id, w) == Some(db.leases[l].attemptId) {
        assert id in rows + [id];
        assert IsActiveFor(mid.leases, db.leases[l].attemptId, l);
      }
    }
  }

  lemma AttemptsStep(db: Db, mid: Db, after: Db, rows: seq<TaskId>, id: TaskId, w: World, now: Time, a: AttemptId)
    requires AttemptsAfter(db, mid, rows, w, now) && a in db.attempts && a in after.attempts
    requires Exits(mid, id, a, w) == Exits(db, id, a, w)
    requires if Exits(mid, id, a, w)
             then ExitNotedOn(after, a, w, id, now) && SameButExit(mid.attempts[a], after.attempts[a])
             else after.attempts[a] == mid.attempts[a]
    ensures if SomeExits(db, rows + [id], w, a)
            then NotedFor(db, after, rows + [id], w, now, a) && SameButExit(db.attempts[a], after.attempts[a])
            else after.attempts[a] == db.attempts[a]
  {
    if Exits(db, id, a, w) {
      assert id in rows + [id];
    } else if SomeExits(db, rows, w, a) {
      var j :| j in rows && Exits(db, j, a, w) && ExitNotedOn(mid, a, w, j, now);
      assert j in rows + [id] && ExitNotedOn(after, a, w, j, now);
    }
  }

  lemma TasksStep(db: Db, mid: Db, after: Db, rows: seq<TaskId>, id: TaskId, w: World)
    requires TasksAfter(db, mid, rows, w) && id !in rows && id in db.tasks && mid.tasks[id] == db.tasks[id]
    requires after.tasks.Keys == mid.tasks.Keys && after.deps == mid.deps
    requires forall j | j in mid.tasks && j != id :: after.tasks[j] == mid.tasks[j]
    requires if Dead(mid.tasks[id], w) then SameButCandidate(mid.tasks[id], after.tasks[id])
             else after.tasks[id] == mid.tasks[id]
    ensures TasksAfter(db, after, rows + [id], w)
  {
  }

  /** Everything the rows were to leave alone. */
  ghost predicate Spares(db: Db, after: Db, rows: seq<TaskId>, w: World, now: Time) {
    LeasesAfter(db, after, rows, w, now) && AttemptsAfter(db, after, rows, w, now) && TasksAfter(db, after, rows, w)
  }

  /** The last row of a pass without error. */
  lemma PassLast(db: Db, rows: seq<TaskId>, w: World, now: Time)
    requires Fenced(db) && Rows(db, rows) && rows != [] && Pass(db, rows, w, now).1.None?
    ensures var front, id := rows[..|rows| - 1], rows[|rows| - 1];
      && Rows(db, front) && id !in front && Selected(db, id) && rows == front + [id]
      && Pass(db, front, w, now).1.None? && id in Pass(db, front, w, now).0.tasks
      && Pass(db, rows, w, now).0 == RowStep(Pass(db, front, w, now).0, id, w, now).0
  {
    ShorterRows(db, rows);
  }

  lemma NoneRefused(db: Db, rows: seq<TaskId>, w: World, now: Time, id: TaskId)
    requires Fenced(db) && Rows(db, rows) && Pass(db, rows, w, now).1.None? && id in rows
    ensures Selected(db, id) && !Refused(db, id, w)
  {
    PassReconciles(db, rows, w, now);
  }

  lemma {:induction false} PassSpares(db: Db, rows: seq<TaskId>, w: World, now: Time)
    requires Fenced(db) && Rows(db, rows) && Pass(db, rows, w, now).1.None?
    ensures Spares(db, Pass(db, rows, w, now).0, rows, w, now)
  {
    if rows != [] {
      var front, id := rows[..|rows| - 1], rows[|rows| - 1];
      PassLast(db, rows, w, now);
      NoneRefused(db, rows, w, now, id);
      PassReconciles(db, front, w, now);
      PassSpares(db, front, w, now);
      RowSpares(db, Pass(db, front, w, now).0, front, id, w, now);
    }
  }

  lemma RowSpares(db: Db, mid: Db, front: seq<TaskId>, id: TaskId, w: World, now: Time)
    requires PassInv(db, mid, front, w) && Selected(db, id) && id !in front && !Refused(db, id, w)
    requires Spares(db, mid, front, w, now)
    ensures Selected(mid, id) && Spares(db, RowStep(mid, id, w, now).0, front + [id], w, now)
  {
    RowAhead(db, mid, front, id, w);
    var after := RowStep(mid, id, w, now).0;
    RowEffect(mid, id, w, now);
    TablesOfRow(mid, id, w, now);
    LeasesStep(db, mid, after, front, id, w, Why(mid, id), now);
    TasksStep(db, mid, after, front, id, w);
    forall a | a in db.attempts
      ensures if SomeExits(db, front + [id], w, a)
              then NotedFor(db, after, front + [id], w, now, a)
                   && SameButExit(db.attempts[a], after.attempts[a])
              else after.attempts[a] == db.attempts[a]
    {
      AttemptsStep(db, mid, after, front, id, w, now, a);
    }
  }

  // ---------------------------------------------------------------- the candidate a dead task carries on

  /** The current attempt of the row has this candidate on record. */
  ghost predicate Recorded(db: Db, row: TaskRow, sha: string) {
    sha != "" && exists a: nat ::
      Holds(row.cols, CurrentAttemptId, Int(a)) && a in db.attempts
      && Holds(db.attempts[a].cols, CandidateSha, Text(sha))
  }

  /** A candidate is written over the one the row had; without one every column stays. */
  ghost predicate Carries(before: TaskRow, after: TaskRow, sha: Option<string>) {
    after.cols == match sha case Some(s) => before.cols[CandidateSha := Text(s)] case None => before.cols
  }

  /** A dead task with a done claim carries what its attempt recorded into verification. */
  ghost predicate CarriesRecorded(db: Db, before: TaskRow, after: TaskRow) {
    && (forall s :: Recorded(db, before, s) ==> Carries(before, after, Some(s)))
    && ((forall s :: !Recorded(db, before, s)) ==> Carries(before, after, None))
  }

  /** Without one it carries the head of its candidate branch into triage. */
  ghost predicate CarriesHead(w: World, id: TaskId, before: TaskRow, after: TaskRow) {
    Carries(before, after, if w.candidate(id) == Some("") then None else w.candidate(id))
  }

  lemma MoveCarries(db: Db, id: TaskId, to: State, cause: nat, sha: Option<string>, now: Time)
    requires id in db.tasks && Legal(db.tasks[id].state, to)
    ensures var after := Transition(db, id, to, cause, ShaField(sha), now).0;
      id in after.tasks && Carries(db.tasks[id], after.tasks[id], if sha == Some("") then None else sha)
  {
    var cols := db.tasks[id].cols;
    if sha.Some? && sha.value != "" {
      assert cols + map[CandidateSha := Text(sha.value)] == cols[CandidateSha := Text(sha.value)];
    } else {
      assert cols + map[] == cols;
    }
  }

  lemma RecordedShaMeans(db: Db, row: TaskRow, s: string)
    requires s != ""
    ensures Recorded(db, row, s) <==> RecordedSha(db, Current(row)) == Some(s)
  {
  }

  lemma ClaimedRowCandidate(db: Db, id: TaskId, w: World, now: Time)
    requires Fenced(db) && id in db.tasks && Dead(db.tasks[id], w)
    requires DoneClaim(db.log, id, Current(db.tasks[id])).Some?
    ensures var after := RowStep(db, id, w, now).0;
      id in after.tasks && CarriesRecorded(db, db.tasks[id], after.tasks[id])
  {
    var c := Current(db.tasks[id]);
    RecoverTables(db, c, "reconciled_done_claim", now);
    var fenced := RecoverLease(db, c, "reconciled_done_claim", now);
    CloseTables(fenced, id, c, now);
    var closed := CloseSlot(fenced, id, c, now);
    var sha := RecordedSha(closed, c);
    assert sha == RecordedSha(db, c);
    MoveCarries(closed, id, Verifying, DoneClaim(db.log, id, c).value, sha, now);
    if sha.Some? && sha.value != "" {
      RecordedShaMeans(db, db.tasks[id], sha.value);
    }
    forall s | Recorded(db, db.tasks[id], s) ensures sha == Some(s) {
      RecordedShaMeans(db, db.tasks[id], s);
    }
  }

  lemma ExitedRowCandidate(db: Db, id: TaskId, w: World, now: Time)
    requires Fenced(db) && id in db.tasks && Dead(db.tasks[id], w) && !Refused(db, id, w)
    requires DoneClaim(db.log, id, Current(db.tasks[id])).None?
    ensures var after := RowStep(db, id, w, now).0;
      id in after.tasks && CarriesHead(w, id, db.tasks[id], after.tasks[id])
  {
    var c := Current(db.tasks[id]);
    RecoverTables(db, c, "reconciled_worker_exit", now);
    var exited := AppendEvent(RecoverLease(db, c, "reconciled_worker_exit", now), Some(id), WorkerExited(c), now);
    if c.Some? {
      NoteTables(exited, c.value, w, id, now);
    }
    var noted := if c.Some? then UpdateAttempt(exited, c.value, Interruption(w, id, now), now).0 else exited;
    MoveCarries(noted, id, State.Triage, |exited.log|, w.candidate(id), now);
    CloseTables(Transition(noted, id, State.Triage, |exited.log|, ShaField(w.candidate(id)), now).0, id, c, now);
  }

  /** The candidate of one dead task after the pass; a recorded one counts if no row notes an exit on its attempt. */
  ghost predicate CandidateAfter(db: Db, after: Db, rows: seq<TaskId>, id: TaskId, w: World)
    requires id in db.tasks
  {
    var c := Current(db.tasks[id]);
    && id in after.tasks
    && (DoneClaim(db.log, id, c).None? ==> CarriesHead(w, id, db.tasks[id], after.tasks[id]))
    && (DoneClaim(db.log, id, c).Some? && !(c.Some? && SomeExits(db, rows, w, c.value))
        ==> CarriesRecorded(db, db.tasks[id], after.tasks[id]))
  }

  ghost predicate CandidatesAfter(db: Db, after: Db, rows: seq<TaskId>, w: World) {
    forall j | j in rows && j in db.tasks && Dead(db.tasks[j], w) :: CandidateAfter(db, after, rows, j, w)
  }

  lemma SameRecord(db: Db, mid: Db, row: TaskRow, after: TaskRow)
    requires CarriesRecorded(mid, row, after)
    requires Current(row).Some? ==>
      (Current(row).value in db.attempts <==> Current(row).value in mid.attempts)
      && (Current(row).value in db.attempts ==> mid.attempts[Current(row).value] == db.attempts[Current(row).value])
    ensures CarriesRecorded(db, row, after)
  {
    assert forall s :: Recorded(db, row, s) <==> Recorded(mid, row, s);
  }

  /** The row that is done last. */
  lemma LastCandidate(db: Db, mid: Db, front: seq<TaskId>, id: TaskId, w: World, now: Time)
    requires PassInv(db, mid, front, w) && AttemptsAfter(db, mid, front, w, now)
    requires Selected(db, id) && id !in front && !Refused(db, id, w) && Dead(db.tasks[id], w)
    ensures Selected(mid, id) && CandidateAfter(db, RowStep(mid, id, w, now).0, front + [id], id, w)
  {
    RowAhead(db, mid, front, id, w);
    var c := Current(db.tasks[id]);
    assert DoneClaim(mid.log, id, c) == DoneClaim(db.log, id, c);
    if DoneClaim(db.log, id, c).None? {
      ExitedRowCandidate(mid, id, w, now);
    } else {
      ClaimedRowCandidate(mid, id, w, now);
      if !(c.Some? && SomeExits(db, front + [id], w, c.value)) {
        assert forall j | j in front :: j in front + [id];
        SameRecord(db, mid, db.tasks[id], RowStep(mid, id, w, now).0.tasks[id]);
      }
    }
  }

  lemma EarlierCandidate(db: Db, mid: Db, after: Db, front: seq<TaskId>, id: TaskId, j: TaskId, w: World)
    requires j in db.tasks && CandidateAfter(db, mid, front, j, w) && j in after.tasks && after.tasks[j] == mid.tasks[j]
    ensures CandidateAfter(db, after, front + [id], j, w)
  {
    assert forall i | i in front :: i in front + [id];
  }

  lemma {:induction false} PassCarries(db: Db, rows: seq<TaskId>, w: World, now: Time)
    requires Fenced(db) && Rows(db, rows) && Pass(db, rows, w, now).1.None?
    ensures CandidatesAfter(db, Pass(db, rows, w, now).0, rows, w)
  {
    if rows != [] {
      var front, id := rows[..|rows| - 1], rows[|rows| - 1];
      PassLast(db, rows, w, now);
      NoneRefused(db, rows, w, now, id);
      PassReconciles(db, front, w, now);
      PassSpares(db, front, w, now);
      PassCarries(db, front, w, now);
      var mid, after := Pass(db, front, w, now).0, Pass(db, rows, w, now).0;
      RowAhead(db, mid, front, id, w);
      RowEffect(mid, id, w, now);
      forall j | j in rows && j in db.tasks && Dead(db.tasks[j], w) ensures CandidateAfter(db, after, rows, j, w) {
        if j == id {
          LastCandidate(db, mid, front, id, w, now);
        } else {
          assert j in front;
          EarlierCandidate(db, mid, after, front, id, j, w);
        }
      }
    }
  }

  // ---------------------------------------------------------------- the log still rebuilds the tables

  lemma FenceIsSound(db: Db, a: AttemptId, l: LeaseId, generation: nat, reason: string, now: Time)
    requires StoreRuns.Sound(db) && OneActive(db.leases)
    ensures StoreRuns.Sound(RecoverStep(db, a, l, generation, reason, now).0)
  {
    StoreRuns.RecoverIsSound(db, StoreRuns.Recover(a, l, generation, reason, now));
  }

  lemma RecoverIsSound(db: Db, c: Option<AttemptId>, reason: string, now: Time)
    requires StoreRuns.Sound(db)
    ensures OneActive(db.leases) && StoreRuns.Sound(RecoverLease(db, c, reason, now))
  {
    FencedHasOneActive(db);
    if c.Some? && ActiveLease(db.leases, c.value).Some? {
      var l := ActiveLease(db.leases, c.value).value;
      FenceIsSound(db, c.value, l, db.leases[l].generation, reason, now);
    }
  }

  lemma EventIsSound(db: Db, id: Option<TaskId>, fact: AuditFact, now: Time)
    requires StoreRuns.Sound(db)
    ensures StoreRuns.Sound(AppendEvent(db, id, fact, now))
  {
    var after := AppendEvent(db, id, fact, now);
    StoreRuns.QuietEvent(db, after, after.log[|db.log|]);
  }

  lemma CloseIsSound(db: Db, id: TaskId, c: Option<AttemptId>, now: Time)
    requires StoreRuns.Sound(db)
    ensures StoreRuns.Sound(CloseSlot(db, id, c, now))
  {
    if c.Some? {
      EventIsSound(db, Some(id), SlotReleased(c.value), now);
    }
  }

  lemma NoteIsSound(db: Db, c: Option<AttemptId>, w: World, id: TaskId, now: Time)
    requires StoreRuns.Sound(db) && (c.Some? ==> c.value in db.attempts)
    ensures StoreRuns.Sound(if c.Some? then UpdateAttempt(db, c.value, Interruption(w, id, now), now).0 else db)
  {
    if c.Some? {
      FencedHasOneActive(db);
      StoreRuns.AuditIsSound(db, StoreRuns.ChangeAttempt(c.value, Interruption(w, id, now), now));
    }
  }

  lemma RowIsSound(db: Db, id: TaskId, w: World, now: Time)
    requires StoreRuns.Sound(db) && Selected(db, id)
    ensures StoreRuns.Sound(RowStep(db, id, w, now).0)
  {
    if db.tasks[id].state == Verifying {
      var c := Current(db.tasks[id]);
      RecoverIsSound(db, c, "reconciled_verifying", now);
      CloseIsSound(RecoverLease(db, c, "reconciled_verifying", now), id, c, now);
    } else if Dead(db.tasks[id], w) {
      if DoneClaim(db.log, id, Current(db.tasks[id])).Some? {
        ClaimedIsSound(db, id, w, now);
      } else {
        ExitedIsSound(db, id, w, now);
      }
    }
  }

  lemma ClaimedIsSound(db: Db, id: TaskId, w: World, now: Time)
    requires StoreRuns.Sound(db) && id in db.tasks && Dead(db.tasks[id], w)
    requires DoneClaim(db.log, id, Current(db.tasks[id])).Some?
    ensures StoreRuns.Sound(RowStep(db, id, w, now).0)
  {
    var c := Current(db.tasks[id]);
    RecoverIsSound(db, c, "reconciled_done_claim", now);
    var fenced := RecoverLease(db, c, "reconciled_done_claim", now);
    CloseIsSound(fenced, id, c, now);
    var closed := CloseSlot(fenced, id, c, now);
    StoreRuns.TransitionIsSound(closed, id, Verifying, DoneClaim(db.log, id, c).value,
                                ShaField(RecordedSha(closed, c)), now);
  }

  lemma ExitedIsSound(db: Db, id: TaskId, w: World, now: Time)
    requires StoreRuns.Sound(db) && id in db.tasks && Dead(db.tasks[id], w)
    requires DoneClaim(db.log, id, Current(db.tasks[id])).None?
    ensures StoreRuns.Sound(RowStep(db, id, w, now).0)
  {
    var c := Current(db.tasks[id]);
    RecoverIsSound(db, c, "reconciled_worker_exit", now);
    var fenced := RecoverLease(db, c, "reconciled_worker_exit", now);
    EventIsSound(fenced, Some(id), WorkerExited(c), now);
    var exited := AppendEvent(fenced, Some(id), WorkerExited(c), now);
    if c.None? || c.value in exited.attempts {
      NoteIsSound(exited, c, w, id, now);
      var noted := if c.Some? then UpdateAttempt(exited, c.value, Interruption(w, id, now), now).0 else exited;
      StoreRuns.TransitionIsSound(noted, id, State.Triage, |exited.log|, ShaField(w.candidate(id)), now);
      CloseIsSound(Transition(noted, id, State.Triage, |exited.log|, ShaField(w.candidate(id)), now).0, id, c, now);
    }
  }

  /** A pass, complete or stopped by an error, keeps the log rebuilding the tables. */
  lemma {:induction false} PassIsSound(db: Db, rows: seq<TaskId>, w: World, now: Time)
    requires StoreRuns.Sound(db) && Rows(db, rows)
    ensures StoreRuns.Sound(Pass(db, rows, w, now).0)
  {
    if rows != [] {
      ShorterRows(db, rows);
      PassIsSound(db, rows[..|rows| - 1], w, now);
      var (mid, error) := Pass(db, rows[..|rows| - 1], w, now);
      if error.None? {
        RowIsSound(mid, rows[|rows| - 1], w, now);
      }
    }
  }

  // ---------------------------------------------------------------- main results

  /** All such rows. */
  ghost predicate AllRows(db: Db, rows: seq<TaskId>) {
    Rows(db, rows) && forall id :: Selected(db, id) ==> id in rows
  }

  /**
   Exactness: a pass without error leaves no task running with a dead session. A dead task went to
   verifying if a done claim of its attempt is in the log and to triage otherwise, every other
   state stayed. The lease active for the current attempt of an orphaned task is recovered with its
   holder unchanged, and its open slot got exactly one release event; the attempts of dead tasks
   without a claim note the exit. Every other lease, attempt, task row and slot is as it was.
   */
  lemma ReconcileIsExact(db: Db, rows: seq<TaskId>, w: World, now: Time, id: TaskId)
    requires Fenced(db) && AllRows(db, rows) && id in db.tasks
    requires forall j | j in rows :: !Refused(db, j, w)
    ensures var after := Pass(db, rows, w, now).0;
      && Pass(db, rows, w, now).1.None?
      && Reconciled(db, after, id, w) && !Dead(after.tasks[id], w)
      && Spares(db, after, rows, w, now) && CandidatesAfter(db, after, rows, w)
      && forall a :: Count(after.log, id, SlotReleased(a))
                     == Count(db.log, id, SlotReleased(a)) + if Closes(db, id, a, w) then 1 else 0
  {
    PassReconciles(db, rows, w, now);
    PassSpares(db, rows, w, now);
    PassCarries(db, rows, w, now);
    var after := Pass(db, rows, w, now).0;
    if id !in rows {
      assert !Selected(db, id);
    }
  }

  // ---------------------------------------------------------------- the pass, read off the columns and the events

  /** The task is running and no live process has its session id. */
  ghost predicate SessionGone(row: TaskRow, w: World) {
    row.state == Running
    && forall v :: Holds(row.cols, SessionId, v) || (SessionId !in row.cols && v == Null) ==> !w.alive(v)
  }

  ghost predicate Logged(log: seq<Event>, id: TaskId, fact: AuditFact) {
    exists i :: 0 <= i < |log| && log[i].taskId == Some(id) && log[i].fact == Audit(fact)
  }

  /** A done claim by the current attempt, or by nobody in particular. */
  ghost predicate Claimed(log: seq<Event>, id: TaskId, row: TaskRow) {
    || Logged(log, id, DoneClaimed(None))
    || exists a: nat :: Logged(log, id, DoneClaimed(Some(a))) && Holds(row.cols, CurrentAttemptId, Int(a))
  }

  lemma {:induction false} CountIsLogged(log: seq<Event>, id: TaskId, fact: AuditFact)
    ensures Count(log, id, fact) > 0 <==> Logged(log, id, fact)
  {
    if log != [] {
      var front, e := log[..|log| - 1], log[|log| - 1];
      CountIsLogged(front, id, fact);
      if Logged(front, id, fact) {
        var i :| 0 <= i < |front| && front[i].taskId == Some(id) && front[i].fact == Audit(fact);
        assert log[i] == front[i];
      }
      if Logged(log, id, fact) && !(e.taskId == Some(id) && e.fact == Audit(fact)) {
        var i :| 0 <= i < |log| && log[i].taskId == Some(id) && log[i].fact == Audit(fact);
        assert front[i] == log[i];
      }
    }
  }

  lemma GoneIsDead(row: TaskRow, w: World)
    ensures SessionGone(row, w) <==> Dead(row, w)
  {
    assert SessionId in row.cols ==> Holds(row.cols, SessionId, row.cols[SessionId]);
  }

  lemma ClaimedIsFound(log: seq<Event>, id: TaskId, row: TaskRow)
    ensures Claimed(log, id, row) <==> DoneClaim(log, id, Current(row)).Some?
  {
    ClaimIsNewest(log, id, Current(row));
    var k := DoneClaim(log, id, Current(row));
    if k.Some? {
      var e := log[k.value - 1];
      assert e.fact == Audit(DoneClaimed(e.fact.audit.claimedBy));
      assert Logged(log, id, DoneClaimed(e.fact.audit.claimedBy));
    }
    if Claimed(log, id, row) {
      ClaimedHasEvent(log, id, row);
    }
  }

  lemma ClaimedHasEvent(log: seq<Event>, id: TaskId, row: TaskRow)
    requires Claimed(log, id, row)
    ensures exists i :: 0 <= i < |log| && IsClaim(log[i], id, Current(row))
  {
    if Logged(log, id, DoneClaimed(None)) {
      var i :| 0 <= i < |log| && log[i].taskId == Some(id) && log[i].fact == Audit(DoneClaimed(None));
      assert IsClaim(log[i], id, Current(row));
    } else {
      var a: nat :| Logged(log, id, DoneClaimed(Some(a))) && Holds(row.cols, CurrentAttemptId, Int(a));
      var i :| 0 <= i < |log| && log[i].taskId == Some(id) && log[i].fact == Audit(DoneClaimed(Some(a)));
      assert IsClaim(log[i], id, Current(row));
    }
  }

  /**
   A task whose session is gone is sent to verifying if it claimed to be done and to triage otherwise, and
   no other task is moved. Neither a gone task nor one in verification keeps an active lease or an open
   slot for its current attempt.
   */
  lemma ReconcileRoutes(db: Db, rows: seq<TaskId>, w: World, now: Time, id: TaskId)
    requires Fenced(db) && AllRows(db, rows) && id in db.tasks
    requires forall j | j in rows :: !Refused(db, j, w)
    ensures var (row, after) := (db.tasks[id], Pass(db, rows, w, now).0);
      && id in after.tasks
      && after.tasks[id].state == (if !SessionGone(row, w) then row.state
                                   else if Claimed(db.log, id, row) then Verifying else State.Triage)
      && forall a: nat | (SessionGone(row, w) || row.state == Verifying) && Holds(row.cols, CurrentAttemptId, Int(a)) ::
           && (forall l | l in after.leases && after.leases[l].attemptId == a :: after.leases[l].status != Active)
           && (Logged(after.log, id, SlotAcquired(a)) ==> Logged(after.log, id, SlotReleased(a)))
  {
    var row, after := db.tasks[id], Pass(db, rows, w, now).0;
    ReconcileIsExact(db, rows, w, now, id);
    GoneIsDead(row, w);
    ClaimedIsFound(db.log, id, row);
    forall a: nat | Orphaned(db, id, w) && Holds(row.cols, CurrentAttemptId, Int(a))
      ensures forall l | l in after.leases && after.leases[l].attemptId == a :: after.leases[l].status != Active
      ensures Logged(after.log, id, SlotAcquired(a)) ==> Logged(after.log, id, SlotReleased(a))
    {
      assert Current(row) == Some(a);
      assert Fallow(after.leases, a);
      assert forall l | l in after.leases && after.leases[l].attemptId == a :: !IsActiveFor(after.leases, a, l);
      CountIsLogged(after.log, id, SlotAcquired(a));
      CountIsLogged(after.log, id, SlotReleased(a));
    }
  }

  /** A release is written once, and only for a slot of the current attempt that was acquired and never released. */
  lemma ReconcileReleases(db: Db, rows: seq<TaskId>, w: World, now: Time, id: TaskId, a: AttemptId)
    requires Fenced(db) && AllRows(db, rows) && id in db.tasks
    requires forall j | j in rows :: !Refused(db, j, w)
    ensures var (row, log) := (db.tasks[id], Pass(db, rows, w, now).0.log);
      Count(log, id, SlotReleased(a)) == Count(db.log, id, SlotReleased(a))
        + if (SessionGone(row, w) || row.state == Verifying) && Holds(row.cols, CurrentAttemptId, Int(a))
             && Logged(db.log, id, SlotAcquired(a)) && !Logged(db.log, id, SlotReleased(a)) then 1 else 0
  {
    ReconcileIsExact(db, rows, w, now, id);
    GoneIsDead(db.tasks[id], w);
    CountIsLogged(db.log, id, SlotAcquired(a));
    CountIsLogged(db.log, id, SlotReleased(a));
  }

  lemma SettledRow(db: Db, id: TaskId, w: World, now: Time)
    requires Fenced(db) && Selected(db, id) && !Dead(db.tasks[id], w)
    requires db.tasks[id].state == Verifying && Current(db.tasks[id]).Some? ==>
      Fallow(db.leases, Current(db.tasks[id]).value) && !SlotOpen(db.log, id, Current(db.tasks[id]).value)
    ensures RowStep(db, id, w, now) == (db, None)
  {
    if db.tasks[id].state == Verifying {
      NotBlank("reconciled_verifying");
      RecoverLeaseEffect(db, Current(db.tasks[id]), "reconciled_verifying", now);
      CloseSlotEffect(db, id, Current(db.tasks[id]), now);
    }
  }

  /** Idempotence: with the same processes alive, a second pass writes no event and changes no row. */
  lemma {:induction false} ReconcileIsIdempotent(db: Db, rows: seq<TaskId>, w: World, now: Time,
                                                  again: seq<TaskId>, later: Time)
    requires Fenced(db) && AllRows(db, rows) && Pass(db, rows, w, now).1.None?
    requires Rows(Pass(db, rows, w, now).0, again)
    ensures Pass(Pass(db, rows, w, now).0, again, w, later) == (Pass(db, rows, w, now).0, None)
    decreases |again|
  {
    var after := Pass(db, rows, w, now).0;
    if again != [] {
      ShorterRows(after, again);
      ReconcileIsIdempotent(db, rows, w, now, again[..|again| - 1], later);
      var id := again[|again| - 1];
      PassReconciles(db, rows, w, now);
      ReconcileIsExact(db, rows, w, now, id);
      SettledRow(after, id, w, later);
    }
  }

  // ---------------------------------------------------------------- the live pass

  method RecoverOrphanedLease(db: Database, c: Option<AttemptId>, reason: string, now: Time)
    requires OneActive(db.leases)
    modifies db`leases, db`log
    ensures db.Now() == RecoverLease(old(db.Now()), c, reason, now)
  {
    if c.None? {
      return;
    }
    var lease := ActiveLease(db.leases, c.value);
    if lease.None? {
      return;
    }
    var recovered := Recover(db, c.value, lease.value, db.leases[lease.value].generation, reason, now);
  }

  method CloseOrphanedSlot(db: Database, id: TaskId, c: Option<AttemptId>, now: Time)
    modifies db`log
    ensures db.Now() == CloseSlot(old(db.Now()), id, c, now)
  {
    if c.None? || !SlotOpen(db.log, id, c.value) {
      return;
    }
    var released := db.Append(Some(id), SlotReleased(c.value), now);
  }

  /** The loop body, on the row as it was first read. */
  method ReconcileRow(db: Database, id: TaskId, row: TaskRow, w: World, now: Time) returns (error: Option<StoreError>)
    requires Fenced(db.Now()) && Selected(db.Now(), id) && row == db.tasks[id]
    modifies db
    ensures (db.Now(), error) == RowStep(old(db.Now()), id, w, now)
  {
    FencedHasOneActive(db.Now());
    var c := Current(row);
    if row.state == Running && w.alive(Session(row)) {
      return None;
    }
    if row.state == Verifying {
      RecoverOrphanedLease(db, c, "reconciled_verifying", now);
      CloseOrphanedSlot(db, id, c, now);
      return None;
    }
    var done := DoneClaim(db.log, id, c);
    if done.Some? {
      RecoverOrphanedLease(db, c, "reconciled_done_claim", now);
      CloseOrphanedSlot(db, id, c, now);
      var sha := RecordedSha(db.Now(), c);
      var moved := db.Move(id, Verifying, done.value, ShaField(sha), now);
      return None;
    }
    RecoverOrphanedLease(db, c, "reconciled_worker_exit", now);
    var s := db.Append(Some(id), WorkerExited(c), now);
    var sha := w.candidate(id);
    if c.Some? {
      InterruptionIsAccepted(db.Now(), c.value, w, id, now);
      var noted := db.ChangeAttempt(c.value, Interruption(w, id, now), now);
      if noted.Err? {
        return Some(noted.error);
      }
    }
    var moved := db.Move(id, State.Triage, s, ShaField(sha), now);
    CloseOrphanedSlot(db, id, c, now);
    return None;
  }

  /** reconcile: the rows are read once, before the first of them is changed. */
  method ReconcileAll(db: Database, rows: seq<TaskId>, w: World, now: Time) returns (error: Option<StoreError>)
    requires Fenced(db.Now()) && Rows(db.Now(), rows)
    modifies db
    ensures (db.Now(), error) == Pass(old(db.Now()), rows, w, now)
  {
    var read := db.tasks;
    error := None;
    assert Rows(db.Now(), []);
    for i := 0 to |rows|
      invariant Rows(old(db.Now()), rows[..i])
      invariant (db.Now(), error) == Pass(old(db.Now()), rows[..i], w, now)
      invariant error.None?
    {
      ghost var d := old(db.Now());
      PassNext(d, rows, i, w, now);
      error := ReconcileRow(db, rows[i], read[rows[i]], w, now);
      if error.Some? {
        ErrorStops(d, rows, i + 1, w, now);
        return;
      }
    }
    assert rows[..|rows|] == rows;
  }

  lemma PassNext(db: Db, rows: seq<TaskId>, i: nat, w: World, now: Time)
    requires Fenced(db) && Rows(db, rows) && i < |rows|
    requires Rows(db, rows[..i]) && Pass(db, rows[..i], w, now).1.None?
    ensures Rows(db, rows[..i + 1])
    ensures var mid := Pass(db, rows[..i], w, now).0;
      && Selected(mid, rows[i]) && mid.tasks[rows[i]] == db.tasks[rows[i]]
      && Pass(db, rows[..i + 1], w, now) == RowStep(mid, rows[i], w, now)
  {
    NextRow(db, rows, i);
    assert rows[..i + 1][..i] == rows[..i];
  }

  lemma NextRow(db: Db, rows: seq<TaskId>, i: nat)
    requires Rows(db, rows) && i < |rows|
    ensures Rows(db, rows[..i + 1]) && rows[i] in rows && rows[i] !in rows[..i]
  {
  }

  /** Rows after the failing one are never looked at. */
  lemma {:induction false} ErrorStops(db: Db, rows: seq<TaskId>, i: nat, w: World, now: Time)
    requires Fenced(db) && Rows(db, rows) && i <= |rows|
    requires Rows(db, rows[..i]) && Pass(db, rows[..i], w, now).1.Some?
    ensures Pass(db, rows, w, now) == Pass(db, rows[..i], w, now)
  {
    if i < |rows| {
      ShorterRows(db, rows);
      assert rows[..|rows| - 1][..i] == rows[..i];
      ErrorStops(db, rows[..|rows| - 1], i, w, now);
    } else {
      assert rows[..i] == rows;
    }
  }
}
