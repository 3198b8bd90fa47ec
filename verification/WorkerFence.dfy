/**
 Fencing of worker output (_validate_worker_lease in scheduler/core.py): a line read by a
 watcher counts only under the lease the watcher was started with.
 */
module WorkerFence {
  import opened Wrappers
  import opened Store
  import opened ExecutionLease
  import StoreRuns

  const TTL := 300

  /** The database with the scheduler's in-memory registries _leases and _lease_heartbeat. */
  datatype Fence = Fence(db: Db, leases: map<TaskId, Lease>, beats: map<TaskId, Time>)

  /** The wall clock read by validate and by renew, and the monotonic clock between them. */
  datatype Clock = Clock(wall: Time, renewWall: Time, tick: Time)

  /** latest_attempt(task) is a; attempt numbers are unique within a task. */
  predicate IsLatest(db: Db, task: TaskId, a: AttemptId) {
    a in db.attempts && db.attempts[a].taskId == task
    && forall b | b in db.attempts && db.attempts[b].taskId == task ::
         db.attempts[b].attemptNo <= db.attempts[a].attemptNo
  }

  predicate HasCaptured(f: Fence, task: TaskId, attempt: AttemptId, captured: Option<Token>) {
    captured.Some? && captured.value.attemptId == attempt && task in f.leases
    && f.leases[task].leaseId == captured.value.leaseId && f.leases[task].generation == captured.value.generation
  }

  /** The heartbeat interval has passed; a task never beaten counts from 0. */
  predicate BeatDue(f: Fence, task: TaskId, interval: int, tick: Time) {
    tick - (if task in f.beats then f.beats[task] else 0) >= interval
  }

  function Reject(f: Fence, task: TaskId, now: Time): Fence {
    f.(db := AppendEvent(f.db, Some(task), Other("worker.event_rejected"), now))
  }

  /** One line of worker output: the registries and the database after it, and whether it counts. */
  function LineStep(f: Fence, task: TaskId, attempt: Option<AttemptId>, captured: Option<Token>,
                    interval: int, k: Clock)
    : (Fence, bool)
  {
    if (attempt.Some? && !HasCaptured(f, task, attempt.value, captured))
       || task !in f.leases || !IsLatest(f.db, task, f.leases[task].attemptId)
       || Validate(f.db, TokenOf(f.leases[task]), k.wall).Err?
    then (Reject(f, task, k.wall), false)
    else if !BeatDue(f, task, interval, k.tick) then (f, true)
    else
      var (db, r) := RenewStep(f.db, TokenOf(f.leases[task]), Some(TTL), k.renewWall);
      if r.Err? then (Reject(f, task, k.wall), false)
      else (Fence(db, f.leases[task := r.value], f.beats[task := k.tick]), true)
  }

  class Scheduler {
    const db: Database
    var leases: map<TaskId, Lease>
    var beats: map<TaskId, Time>

    function Now(): Fence reads this, db {
      Fence(db.Now(), leases, beats)
    }

    constructor (d: Database)
      ensures db == d && leases == map[] && beats == map[]
    {
      db, leases, beats := d, map[], map[];
    }

    method RejectWorkerEvent(task: TaskId, now: Time)
      modifies db`log
      ensures Now() == Reject(old(Now()), task, now)
    {
      var s := db.Append(Some(task), Other("worker.event_rejected"), now);
    }

    /** _validate_worker_lease */
    method ValidateWorkerLease(task: TaskId, attempt: Option<AttemptId>, captured: Option<Token>,
                               interval: int, k: Clock)
      returns (accepted: bool)
      modifies this, db`leases, db`log
      ensures (Now(), accepted) == LineStep(old(Now()), task, attempt, captured, interval, k)
    {
      if attempt.Some? && !HasCaptured(Now(), task, attempt.value, captured) {
        RejectWorkerEvent(task, k.wall);
        return false;
      }
      if task !in leases || !IsLatest(db.Now(), task, leases[task].attemptId) {
        RejectWorkerEvent(task, k.wall);
        return false;
      }
      var current := TokenOf(leases[task]);
      var valid := Validate(db.Now(), current, k.wall);
      if valid.Err? {
        RejectWorkerEvent(task, k.wall);
        return false;
      }
      if k.tick - (if task in beats then beats[task] else 0) >= interval {
        var renewed := Renew(db, current, Some(TTL), k.renewWall);
        if renewed.Err? {
          RejectWorkerEvent(task, k.wall);
          return false;
        }
        leases, beats := leases[task := renewed.value], beats[task := k.tick];
      }
      return true;
    }
  }

  // ---------------------------------------------------------------- runs

  datatype Move =
    | Write(op: StoreRuns.Op)
    | Launch(task: TaskId, child: AttemptId, owner: string, time: Time, lease: LeaseId, tick: Time)
    | LaunchFailed(task: TaskId, reason: string, time: Time)
    | Line(task: TaskId, attempt: Option<AttemptId>, captured: Option<Token>, interval: int, clock: Clock)
    | Teardown(task: TaskId, time: Time)
    | Restart

  /** LaunchFailed recovers and forgets the lease; Teardown forgets and releases it, if it still can. */
  function Step(f: Fence, m: Move): Fence
    requires StoreRuns.Sound(f.db)
  {
    FencedHasOneActive(f.db);
    match m
    case Write(op) => f.(db := StoreRuns.Apply(f.db, op).0)
    case Launch(t, a, owner, now, id, tick) =>
      var (db, r) := AcquireStep(f.db, a, owner, Some(TTL), now, id);
      if r.Err? then f.(db := db) else Fence(db, f.leases[t := r.value], f.beats[t := tick])
    case LaunchFailed(t, reason, now) =>
      if t !in f.leases then f
      else
        var l := f.leases[t];
        Fence(RecoverStep(f.db, l.attemptId, l.leaseId, l.generation, reason, now).0, f.leases - {t}, f.beats - {t})
    case Line(t, a, c, interval, k) => LineStep(f, t, a, c, interval, k).0
    case Teardown(t, now) =>
      if t !in f.leases then f
      else Fence(ReleaseStep(f.db, TokenOf(f.leases[t]), "scheduler_teardown", now).0, f.leases - {t}, f.beats - {t})
    case Restart => f.(leases := map[], beats := map[])
  }

  /** Every step is a sequence of at most one database operation. */
  function DbOps(f: Fence, m: Move): seq<StoreRuns.Op> {
    match m
    case Write(op) => [op]
    case Launch(t, a, owner, now, id, _) => [StoreRuns.Acquire(a, owner, Some(TTL), now, id)]
    case LaunchFailed(t, reason, now) =>
      if t !in f.leases then []
      else [StoreRuns.Recover(f.leases[t].attemptId, f.leases[t].leaseId, f.leases[t].generation, reason, now)]
    case Line(t, a, c, interval, k) =>
      var (after, accepted) := LineStep(f, t, a, c, interval, k);
      if !accepted then [StoreRuns.Note(Some(t), Other("worker.event_rejected"), k.wall)]
      else if BeatDue(f, t, interval, k.tick) && t in f.leases
      then [StoreRuns.Renew(TokenOf(f.leases[t]), Some(TTL), k.renewWall)] else []
    case Teardown(t, now) =>
      if t !in f.leases then [] else [StoreRuns.Release(TokenOf(f.leases[t]), "scheduler_teardown", now)]
    case Restart => []
  }

  lemma OneOp(db: Db, op: StoreRuns.Op)
    requires StoreRuns.Sound(db)
    ensures StoreRuns.Run(db, [op]) == StoreRuns.Apply(db, op).0
  {
    assert [op][..0] == [];
    assert StoreRuns.Run(db, []) == db;
  }

  ghost predicate Applies(f: Fence, m: Move)
    requires StoreRuns.Sound(f.db)
  {
    Step(f, m).db == if DbOps(f, m) == [] then f.db else StoreRuns.Apply(f.db, DbOps(f, m)[0]).0
  }

  lemma WriteApplies(f: Fence, m: Move)
    requires StoreRuns.Sound(f.db) && (m.Write? || m.Restart?)
    ensures Applies(f, m)
  {
  }

  lemma LaunchApplies(f: Fence, m: Move)
    requires StoreRuns.Sound(f.db) && (m.Launch? || m.LaunchFailed?)
    ensures Applies(f, m)
  {
  }

  lemma ReleaseApplies(db: Db, t: Token, reason: string, now: Time)
    requires StoreRuns.Sound(db) && OneActive(db.leases)
    ensures StoreRuns.Apply(db, StoreRuns.Release(t, reason, now)).0 == ReleaseStep(db, t, reason, now).0
  {
  }

  lemma TeardownApplies(f: Fence, m: Move)
    requires StoreRuns.Sound(f.db) && m.Teardown?
    ensures Applies(f, m)
  {
    FencedHasOneActive(f.db);
    if m.task in f.leases {
      ReleaseApplies(f.db, TokenOf(f.leases[m.task]), "scheduler_teardown", m.time);
    }
  }

  /** What a line does to the database. */
  lemma LineWrites(f: Fence, task: TaskId, attempt: Option<AttemptId>, captured: Option<Token>, interval: int, k: Clock)
    ensures var (after, accepted) := LineStep(f, task, attempt, captured, interval, k);
      && (accepted ==> task in f.leases)
      && after.db == if !accepted then AppendEvent(f.db, Some(task), Other("worker.event_rejected"), k.wall)
                     else if BeatDue(f, task, interval, k.tick)
                     then RenewStep(f.db, TokenOf(f.leases[task]), Some(TTL), k.renewWall).0
                     else f.db
  {
  }

  lemma LineApplies(f: Fence, m: Move)
    requires StoreRuns.Sound(f.db) && m.Line?
    ensures Applies(f, m)
  {
    LineWrites(f, m.task, m.attempt, m.captured, m.interval, m.clock);
  }

  lemma StepApplies(f: Fence, m: Move)
    requires StoreRuns.Sound(f.db)
    ensures Applies(f, m)
  {
    match m
    case Write(_) => WriteApplies(f, m);
    case Restart => WriteApplies(f, m);
    case Line(_, _, _, _, _) => LineApplies(f, m);
    case Teardown(_, _) => TeardownApplies(f, m);
    case _ => LaunchApplies(f, m);
  }

  lemma StepIsRun(f: Fence, m: Move)
    requires StoreRuns.Sound(f.db)
    ensures Step(f, m).db == StoreRuns.Run(f.db, DbOps(f, m))
  {
    var ops := DbOps(f, m);
    StepApplies(f, m);
    if ops != [] {
      assert ops == [ops[0]];
      OneOp(f.db, ops[0]);
    }
  }

  function Run(f: Fence, moves: seq<Move>): (after: Fence)
    requires StoreRuns.Sound(f.db)
    ensures StoreRuns.Sound(after.db) && Monotone(f.db, after.db)
  {
    if moves == [] then f
    else
      var before := Run(f, moves[..|moves| - 1]);
      StepIsRun(before, moves[|moves| - 1]);
      StoreRuns.MonotoneTransitive(f.db, before.db, Step(before, moves[|moves| - 1]).db);
      Step(before, moves[|moves| - 1])
  }

  // ---------------------------------------------------------------- stale watchers

  /** t names a lease of the table, held for an attempt of the task. */
  predicate Issued(db: Db, task: TaskId, t: Token) {
    && t.leaseId in db.leases && TokenOf(db.leases[t.leaseId]) == t && !Blank(t.ownerId) && t.generation > 0
    && t.attemptId in db.attempts && db.attempts[t.attemptId].taskId == task
  }

  predicate Superseded(db: Db, task: TaskId, a: AttemptId) {
    a in db.attempts
    && exists b | b in db.attempts ::
         db.attempts[b].taskId == task && db.attempts[b].attemptNo > db.attempts[a].attemptNo
  }

  /** Torn down, fenced, or replaced by a newer attempt. */
  predicate Stale(f: Fence, task: TaskId, t: Token)
    requires t.leaseId in f.db.leases
  {
    || task !in f.leases || f.leases[task].leaseId != t.leaseId
    || f.db.leases[t.leaseId].status != Active
    || Superseded(f.db, task, t.attemptId)
  }

  /** The registered leases are rows of the table, up to what renew rewrites. */
  ghost predicate Registered(f: Fence) {
    forall t | t in f.leases ::
      f.leases[t].leaseId in f.db.leases && SameIdentity(f.db.leases[f.leases[t].leaseId], f.leases[t])
  }

  /** When the lease of the task was last renewed or acquired; 0 if this scheduler did neither. */
  function LastBeat(f: Fence, task: TaskId): Time {
    if task in f.beats then f.beats[task] else 0
  }

  lemma LatestIffNotSuperseded(db: Db, task: TaskId, a: AttemptId)
    requires a in db.attempts && db.attempts[a].taskId == task
    ensures IsLatest(db, task, a) <==> !Superseded(db, task, a)
  {
  }

  /**
   A line is accepted exactly when its lease is registered for the task, active, unexpired at both
   clock readings, and held for the task's latest attempt.
   */
  lemma AcceptedIffCurrent(f: Fence, task: TaskId, t: Token, interval: int, k: Clock)
    requires Registered(f) && Issued(f.db, task, t)
    ensures LineStep(f, task, Some(t.attemptId), Some(t), interval, k).1
      <==> !Stale(f, task, t) && !Expired(f.db.leases[t.leaseId], k.wall)
           && (k.tick - LastBeat(f, task) >= interval ==> !Expired(f.db.leases[t.leaseId], k.renewWall))
  {
    LatestIffNotSuperseded(f.db, task, t.attemptId);
    if task in f.leases && f.leases[task].leaseId == t.leaseId {
      assert TokenOf(f.leases[task]) == t;
    }
  }

  /** An accepted line belongs to the newest generation of its attempt. */
  lemma AcceptedIsNewest(f: Fence, task: TaskId, t: Token, interval: int, k: Clock)
    requires StoreRuns.Sound(f.db) && Registered(f) && Issued(f.db, task, t)
    requires LineStep(f, task, Some(t.attemptId), Some(t), interval, k).1
    ensures t.generation == MaxGeneration(f.db.leases, t.attemptId)
    ensures forall id | IsActiveFor(f.db.leases, t.attemptId, id) :: id == t.leaseId
  {
    AcceptedIffCurrent(f, task, t, interval, k);
    FencedHasOneActive(f.db);
    assert IsActiveFor(f.db.leases, t.attemptId, t.leaseId);
  }

  /** A rejected line leaves its audit event and nothing else. */
  lemma RejectedChangesNothing(f: Fence, task: TaskId, attempt: Option<AttemptId>, captured: Option<Token>,
                               interval: int, k: Clock)
    requires !LineStep(f, task, attempt, captured, interval, k).1
    ensures var after := LineStep(f, task, attempt, captured, interval, k).0;
      && after == f.(db := f.db.(log := after.db.log))
      && exists e: Event :: after.db.log == f.db.log + [e] && e.fact == Audit(Other("worker.event_rejected"))
  {
    var e := Event(k.wall, Some(task), Audit(Other("worker.event_rejected")));
    assert LineStep(f, task, attempt, captured, interval, k).0.db.log == f.db.log + [e];
  }

  // ---------------------------------------------------------------- a stale watcher stays stale

  /** Attempts are never removed, moved or renumbered. */
  ghost predicate AttemptsKept(before: Db, after: Db) {
    forall a | a in before.attempts ::
      && a in after.attempts && after.attempts[a].taskId == before.attempts[a].taskId
      && after.attempts[a].attemptNo == before.attempts[a].attemptNo
  }

  lemma StepKeepsAttempts(f: Fence, m: Move)
    requires StoreRuns.Sound(f.db)
    ensures AttemptsKept(f.db, Step(f, m).db)
  {
    StepApplies(f, m);
    if DbOps(f, m) != [] {
      OpKeepsAttempts(f.db, DbOps(f, m)[0]);
    }
  }

  lemma OpKeepsAttempts(db: Db, op: StoreRuns.Op)
    requires StoreRuns.Sound(db)
    ensures AttemptsKept(db, StoreRuns.Apply(db, op).0)
  {
    FencedHasOneActive(db);
    forall a | a in db.attempts
      ensures var after := StoreRuns.Apply(db, op).0;
        a in after.attempts && StoreRuns.SameAttempt(db.attempts[a], after.attempts[a])
    {
      StoreRuns.StepKeepsIdentity(db, op, a);
    }
  }

  lemma SupersededStays(before: Db, after: Db, task: TaskId, a: AttemptId)
    requires AttemptsKept(before, after) && Superseded(before, task, a)
    ensures Superseded(after, task, a)
  {
  }

  /** No step registers a lease that is already in the table, except to renew the one registered. */
  lemma RegistryOnlyRenews(f: Fence, m: Move, task: TaskId, id: LeaseId)
    requires StoreRuns.Sound(f.db) && id in f.db.leases
    requires task !in f.leases || f.leases[task].leaseId != id
    ensures var after := Step(f, m); task !in after.leases || after.leases[task].leaseId != id
  {
    FencedHasOneActive(f.db);
  }

  lemma StepKeepsStale(f: Fence, m: Move, task: TaskId, t: Token)
    requires StoreRuns.Sound(f.db) && Issued(f.db, task, t) && Stale(f, task, t)
    ensures Issued(Step(f, m).db, task, t) && Stale(Step(f, m), task, t)
  {
    var after := Step(f, m);
    StepKeepsAttempts(f, m);
    StepIsRun(f, m);
    assert Monotone(f.db, after.db);
    if task !in f.leases || f.leases[task].leaseId != t.leaseId {
      RegistryOnlyRenews(f, m, task, t.leaseId);
    } else if Superseded(f.db, task, t.attemptId) {
      SupersededStays(f.db, after.db, task, t.attemptId);
    }
  }

  /** A step registers at most the lease it acquired or renewed. */
  lemma RegistryStep(f: Fence, m: Move, t: TaskId)
    requires StoreRuns.Sound(f.db) && t in Step(f, m).leases
    ensures var after := Step(f, m);
      (t in f.leases && after.leases[t] == f.leases[t])
      || (after.leases[t].leaseId in after.db.leases && after.db.leases[after.leases[t].leaseId] == after.leases[t])
  {
    FencedHasOneActive(f.db);
    if m.Launch? {
      AcquiredIsStored(f.db, m.child, m.owner, m.time, m.lease);
    } else if m.Line? && t == m.task && t in f.leases {
      RenewedIsStored(f.db, TokenOf(f.leases[t]), m.clock.renewWall);
    }
  }

  lemma AcquiredIsStored(db: Db, a: AttemptId, owner: string, now: Time, id: LeaseId)
    requires OneActive(db.leases)
    ensures var (after, r) := AcquireStep(db, a, owner, Some(TTL), now, id);
      r.Ok? ==> r.value.leaseId == id && id in after.leases && after.leases[id] == r.value
  {
  }

  lemma RenewedIsStored(db: Db, t: Token, now: Time)
    ensures var (after, r) := RenewStep(db, t, Some(TTL), now);
      r.Ok? && db.leases[t.leaseId].leaseId == t.leaseId ==>
        t.leaseId in after.leases && after.leases[t.leaseId] == r.value && r.value.leaseId == t.leaseId
  {
  }

  lemma StepKeepsRegistered(f: Fence, m: Move)
    requires StoreRuns.Sound(f.db) && Registered(f)
    ensures Registered(Step(f, m))
  {
    var after := Step(f, m);
    StepIsRun(f, m);
    assert Monotone(f.db, after.db);
    forall t | t in after.leases
      ensures after.leases[t].leaseId in after.db.leases
              && SameIdentity(after.db.leases[after.leases[t].leaseId], after.leases[t])
    {
      RegistryStep(f, m, t);
      if t in f.leases && after.leases[t] == f.leases[t] {
        assert f.leases[t].leaseId in f.db.leases;
      }
    }
  }

  lemma {:induction false} StaleForever(f: Fence, moves: seq<Move>, task: TaskId, t: Token)
    requires StoreRuns.Sound(f.db) && Registered(f) && Issued(f.db, task, t) && Stale(f, task, t)
    ensures var after := Run(f, moves); Registered(after) && Issued(after.db, task, t) && Stale(after, task, t)
  {
    if moves != [] {
      StaleForever(f, moves[..|moves| - 1], task, t);
      StepKeepsStale(Run(f, moves[..|moves| - 1]), moves[|moves| - 1], task, t);
      StepKeepsRegistered(Run(f, moves[..|moves| - 1]), moves[|moves| - 1]);
    }
  }

  /**
   Once a watcher's lease is torn down, recovered or released, or a newer attempt of the task
   exists, no line of that watcher is accepted after any further run.
   */
  lemma OldWatcherIsSilenced(f: Fence, moves: seq<Move>, task: TaskId, t: Token, interval: int, k: Clock)
    requires StoreRuns.Sound(f.db) && Registered(f) && Issued(f.db, task, t) && Stale(f, task, t)
    ensures !LineStep(Run(f, moves), task, Some(t.attemptId), Some(t), interval, k).1
  {
    StaleForever(f, moves, task, t);
    AcceptedIffCurrent(Run(f, moves), task, t, interval, k);
  }

  /** Teardown, a restart of the scheduler, and a newer attempt each make the watcher stale. */
  lemma TeardownMakesStale(f: Fence, task: TaskId, t: Token, now: Time)
    requires StoreRuns.Sound(f.db) && Issued(f.db, task, t)
    ensures Stale(Step(f, Teardown(task, now)), task, t) && Stale(Step(f, Restart), task, t)
  {
  }

  lemma RecoveryMakesStale(f: Fence, task: TaskId, t: Token, reason: string, now: Time)
    requires StoreRuns.Sound(f.db) && Issued(f.db, task, t) && !Blank(reason)
    ensures Stale(Step(f, Write(StoreRuns.Recover(t.attemptId, t.leaseId, t.generation, reason, now))), task, t)
  {
  }

  lemma NewerAttemptMakesStale(f: Fence, task: TaskId, t: Token, child: AttemptId, no: nat, n: NewAttempt, now: Time)
    requires StoreRuns.Sound(f.db) && Issued(f.db, task, t)
    requires no > f.db.attempts[t.attemptId].attemptNo && CreateAttempt(f.db, child, task, no, n, now).1.Ok?
    ensures Stale(Step(f, Write(StoreRuns.AddAttempt(child, task, no, n, now))), task, t)
  {
    var after := Step(f, Write(StoreRuns.AddAttempt(child, task, no, n, now))).db;
    assert child in after.attempts && after.attempts[child].attemptNo == no;
  }

  // ---------------------------------------------------------------- an expired lease

  /** The clocks a step reads are not before `seen`. */
  predicate NotBefore(m: Move, seen: Time) {
    match m
    case Write(op) => op.time >= seen
    case Launch(_, _, _, now, _, _) => now >= seen
    case LaunchFailed(_, _, now) => now >= seen
    case Line(_, _, _, _, k) => k.wall >= seen && k.renewWall >= seen
    case Teardown(_, now) => now >= seen
    case Restart => true
  }

  /** Fenced already, or past its expiry at `seen`. */
  predicate Lapsed(db: Db, id: LeaseId, seen: Time) {
    id in db.leases && (db.leases[id].status != Active || Expired(db.leases[id], seen))
  }

  lemma StepKeepsLapsed(f: Fence, m: Move, id: LeaseId, seen: Time)
    requires StoreRuns.Sound(f.db) && Lapsed(f.db, id, seen) && NotBefore(m, seen)
    ensures Lapsed(Step(f, m).db, id, seen)
  {
    StepIsRun(f, m);
    if f.db.leases[id].status == Active {
      StoreRuns.ExpiredRowKept(f.db, DbOps(f, m), id, seen);
    } else {
      assert Monotone(f.db, Step(f, m).db);
    }
  }

  lemma {:induction false} LapsedForever(f: Fence, moves: seq<Move>, id: LeaseId, seen: Time)
    requires StoreRuns.Sound(f.db) && Lapsed(f.db, id, seen)
    requires forall i | 0 <= i < |moves| :: NotBefore(moves[i], seen)
    ensures Lapsed(Run(f, moves).db, id, seen)
  {
    if moves != [] {
      LapsedForever(f, moves[..|moves| - 1], id, seen);
      StepKeepsLapsed(Run(f, moves[..|moves| - 1]), moves[|moves| - 1], id, seen);
    }
  }

  lemma LapsedIsRejected(f: Fence, task: TaskId, attempt: AttemptId, t: Token, interval: int, k: Clock, seen: Time)
    requires Lapsed(f.db, t.leaseId, seen) && k.wall >= seen
    ensures !LineStep(f, task, Some(attempt), Some(t), interval, k).1
  {
  }

  /** Once a watcher's lease was seen expired, no later line of it is accepted while the clock does not run back. */
  lemma ExpiredWatcherIsSilenced(f: Fence, moves: seq<Move>, task: TaskId, attempt: AttemptId, t: Token, interval: int,
                                 k: Clock, seen: Time)
    requires StoreRuns.Sound(f.db) && Lapsed(f.db, t.leaseId, seen) && k.wall >= seen
    requires forall i | 0 <= i < |moves| :: NotBefore(moves[i], seen)
    ensures !LineStep(Run(f, moves), task, Some(attempt), Some(t), interval, k).1
  {
    LapsedForever(f, moves, t.leaseId, seen);
    LapsedIsRejected(Run(f, moves), task, attempt, t, interval, k, seen);
  }
}
