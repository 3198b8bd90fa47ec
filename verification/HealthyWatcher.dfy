/**
 The heartbeat of a worker's lease: which lines renew it, and that a worker which keeps writing
 lines is heard until somebody takes its lease away.
 */
module HealthyWatcher {
  import opened Wrappers
  import opened Store
  import opened ExecutionLease
  import opened WorkerFence
  import StoreRuns

  // ---------------------------------------------------------------- one line

  /** The lease of the task, in the table and in the registry, runs from now for the full time again. */
  ghost predicate Renewed(f: Fence, after: Fence, task: TaskId, k: Clock) {
    && task in f.leases && f.leases[task].leaseId in f.db.leases
    && var (id, e) := (f.leases[task].leaseId, Some(k.renewWall + TTL));
       && after.db.leases == f.db.leases[
            id := f.db.leases[id].(renewedAt := k.renewWall, expiresAt := e, updatedAt := k.renewWall)]
       && after.leases == f.leases[task := after.db.leases[id]]
       && after.beats == f.beats[task := k.tick]
       && after.db.tasks == f.db.tasks && after.db.deps == f.db.deps && after.db.attempts == f.db.attempts
       && after.db.log == f.db.log + [Event(k.renewWall, Some(f.db.leases[id].taskId),
                                            LeaseRenewed(id, k.renewWall, e))]
  }

  /** An accepted line renews its lease exactly when the interval has passed since the last beat. */
  lemma AcceptedLineBeats(f: Fence, task: TaskId, attempt: Option<AttemptId>, captured: Option<Token>,
                          interval: int, k: Clock)
    requires LineStep(f, task, attempt, captured, interval, k).1
    ensures var after := LineStep(f, task, attempt, captured, interval, k).0;
      if k.tick - LastBeat(f, task) >= interval then Renewed(f, after, task, k) else after == f
  {
  }

  // ---------------------------------------------------------------- a watcher that is not disturbed

  /** A line of this watcher. */
  predicate Own(m: Move, task: TaskId, t: Token) {
    m.Line? && m.task == task && m.attempt == Some(t.attemptId) && m.captured == Some(t)
  }

  /** Anything but this watcher's lines that is not about its task's worker and does not renew its lease. */
  predicate Elsewhere(m: Move, task: TaskId, t: Token) {
    match m
    case Write(op) => !(op.Renew? && op.token.leaseId == t.leaseId)
    case Launch(j, _, _, _, _, _) => j != task
    case LaunchFailed(j, _, _) => j != task
    case Line(j, _, _, _, _) => j != task
    case Teardown(j, _) => j != task
    case Restart => false
  }

  /** No other task has this lease in the registry. */
  predicate Alone(f: Fence, task: TaskId, t: Token) {
    forall j | j in f.leases && j != task :: f.leases[j].leaseId != t.leaseId
  }

  /**
   `seen` is when the watcher last read a line, on a clock that is `offset` behind the wall. The lease
   outlives its last beat by its full time, and the beat is not yet due at `seen`.
   */
  predicate Fit(f: Fence, task: TaskId, t: Token, interval: int, offset: int, seen: Time)
    requires t.leaseId in f.db.leases
  {
    var e := f.db.leases[t.leaseId].expiresAt;
    && (e.Some? ==> LastBeat(f, task) + offset + TTL <= e.value)
    && seen - LastBeat(f, task) < interval
  }

  /** The clock readings of a line that comes soon enough after the one before. */
  predicate Timely(k: Clock, interval: int, offset: int, seen: Time) {
    k.wall <= k.renewWall && k.tick + offset <= k.renewWall <= seen + offset + TTL - interval
  }

  lemma OwnLineIsHeard(f: Fence, m: Move, task: TaskId, t: Token, offset: int, seen: Time)
    requires Registered(f) && Issued(f.db, task, t) && !WorkerFence.Stale(f, task, t) && Own(m, task, t)
    requires 0 < m.interval && Fit(f, task, t, m.interval, offset, seen)
    requires Timely(m.clock, m.interval, offset, seen)
    ensures var (after, accepted) := LineStep(f, task, m.attempt, m.captured, m.interval, m.clock);
      && accepted && t.leaseId in after.db.leases && Fit(after, task, t, m.interval, offset, m.clock.tick)
  {
    AcceptedIffCurrent(f, task, t, m.interval, m.clock);
    AcceptedLineBeats(f, task, m.attempt, m.captured, m.interval, m.clock);
  }

  /** The row is as it was, or was taken out of active. */
  ghost predicate RowKept(db: Db, after: Db, id: LeaseId)
    requires id in db.leases
  {
    id in after.leases && (after.leases[id] == db.leases[id] || after.leases[id].status != Active)
  }

  lemma AcquireKeepsRow(db: Db, op: StoreRuns.Op, id: LeaseId)
    requires Fenced(db) && OneActive(db.leases) && id in db.leases && op.Acquire?
    ensures RowKept(db, StoreRuns.Step(db, op).0, id)
  {
    AcquiredRows(db, op.attempt, op.owner, op.ttl, op.time, op.lease);
  }

  lemma CloseKeepsRow(db: Db, op: StoreRuns.Op, id: LeaseId)
    requires OneActive(db.leases) && id in db.leases
    requires op.Release? || op.Recover? || (op.Renew? && op.token.leaseId != id)
    ensures RowKept(db, StoreRuns.Step(db, op).0, id)
  {
  }

  lemma OthersKeepRow(db: Db, op: StoreRuns.Op, id: LeaseId)
    requires OneActive(db.leases) && id in db.leases
    requires op.AddTask? || op.MoveTask? || op.AddAttempt? || op.ChangeAttempt? || op.Note?
    ensures RowKept(db, StoreRuns.Step(db, op).0, id)
  {
  }

  /** An operation that does not renew the lease keeps its row in that sense. */
  lemma OpKeepsRow(db: Db, op: StoreRuns.Op, id: LeaseId)
    requires StoreRuns.Sound(db) && id in db.leases && !(op.Renew? && op.token.leaseId == id)
    ensures RowKept(db, StoreRuns.Apply(db, op).0, id)
  {
    FencedHasOneActive(db);
    match op
    case Acquire(_, _, _, _, _) => AcquireKeepsRow(db, op, id);
    case Release(_, _, _) => CloseKeepsRow(db, op, id);
    case Recover(_, _, _, _, _) => CloseKeepsRow(db, op, id);
    case Renew(_, _, _) => CloseKeepsRow(db, op, id);
    case _ => OthersKeepRow(db, op, id);
  }

  lemma ElsewhereKeepsRow(f: Fence, m: Move, task: TaskId, t: Token)
    requires StoreRuns.Sound(f.db) && Registered(f) && Issued(f.db, task, t) && Alone(f, task, t)
    requires Elsewhere(m, task, t)
    ensures RowKept(f.db, Step(f, m).db, t.leaseId)
  {
    StepApplies(f, m);
    if DbOps(f, m) != [] {
      var op := DbOps(f, m)[0];
      if m.Line? && op.Renew? {
        assert m.task in f.leases && op.token == TokenOf(f.leases[m.task]);
      }
      OpKeepsRow(f.db, op, t.leaseId);
    }
  }

  lemma ElsewhereKeepsBeat(f: Fence, m: Move, task: TaskId, t: Token)
    requires StoreRuns.Sound(f.db) && Elsewhere(m, task, t)
    ensures LastBeat(Step(f, m), task) == LastBeat(f, task)
  {
    FencedHasOneActive(f.db);
  }

  lemma StepKeepsAlone(f: Fence, m: Move, task: TaskId, t: Token)
    requires StoreRuns.Sound(f.db) && Issued(f.db, task, t) && Alone(f, task, t)
    ensures Alone(Step(f, m), task, t)
  {
    forall j | j in Step(f, m).leases && j != task ensures Step(f, m).leases[j].leaseId != t.leaseId {
      RegistryOnlyRenews(f, m, j, t.leaseId);
    }
  }

  // ---------------------------------------------------------------- whole runs

  /** The tick of the watcher's last line in the run, `start` before its first. */
  function LastLine(moves: seq<Move>, task: TaskId, t: Token, start: Time): Time {
    if moves == [] then start
    else if Own(moves[|moves| - 1], task, t) then moves[|moves| - 1].clock.tick
    else LastLine(moves[..|moves| - 1], task, t, start)
  }

  /** Every line of the watcher comes soon enough after the one before it; nobody else touches its lease. */
  predicate Lively(moves: seq<Move>, task: TaskId, t: Token, interval: int, offset: int, start: Time) {
    forall i | 0 <= i < |moves| ::
      LivelyNext(moves[i], task, t, interval, offset, LastLine(moves[..i], task, t, start))
  }

  /** What stays true of such a watcher. */
  ghost predicate Keeping(f: Fence, task: TaskId, t: Token, interval: int, offset: int, seen: Time) {
    && StoreRuns.Sound(f.db) && Registered(f) && Issued(f.db, task, t) && Alone(f, task, t)
    && Fit(f, task, t, interval, offset, seen)
  }

  lemma LivelyFront(moves: seq<Move>, task: TaskId, t: Token, interval: int, offset: int, start: Time)
    requires Lively(moves, task, t, interval, offset, start) && moves != []
    ensures var front, m := moves[..|moves| - 1], moves[|moves| - 1];
      && Lively(front, task, t, interval, offset, start)
      && LivelyNext(m, task, t, interval, offset, LastLine(front, task, t, start))
  {
    var front := moves[..|moves| - 1];
    assert forall i | 0 <= i < |front| :: front[..i] == moves[..i] && front[i] == moves[i];
  }

  /** A move that may come next: a timely line of the watcher, or something elsewhere. */
  predicate LivelyNext(m: Move, task: TaskId, t: Token, interval: int, offset: int, seen: Time) {
    if Own(m, task, t) then m.interval == interval && Timely(m.clock, interval, offset, seen)
    else Elsewhere(m, task, t)
  }

  lemma {:induction false} LivelyRunsKeep(f: Fence, moves: seq<Move>, task: TaskId, t: Token, interval: int,
                                          offset: int, start: Time)
    requires Keeping(f, task, t, interval, offset, start) && 0 < interval
    requires Lively(moves, task, t, interval, offset, start)
    requires t.leaseId in Run(f, moves).db.leases && !WorkerFence.Stale(Run(f, moves), task, t)
    ensures Keeping(Run(f, moves), task, t, interval, offset, LastLine(moves, task, t, start))
  {
    if moves != [] {
      var front, m := moves[..|moves| - 1], moves[|moves| - 1];
      FrontIsCurrent(f, front, m, task, t);
      LivelyFront(moves, task, t, interval, offset, start);
      LivelyRunsKeep(f, front, task, t, interval, offset, start);
      KeepsOn(Run(f, front), m, task, t, interval, offset, LastLine(front, task, t, start));
    }
  }

  /** A watcher that is current after a step was current before it. */
  lemma FrontIsCurrent(f: Fence, front: seq<Move>, m: Move, task: TaskId, t: Token)
    requires StoreRuns.Sound(f.db) && Issued(f.db, task, t)
    requires t.leaseId in Step(Run(f, front), m).db.leases && !WorkerFence.Stale(Step(Run(f, front), m), task, t)
    ensures t.leaseId in Run(f, front).db.leases && !WorkerFence.Stale(Run(f, front), task, t)
  {
    var mid := Run(f, front);
    assert Monotone(f.db, mid.db);
    IssuedStays(f, front, task, t);
    if WorkerFence.Stale(mid, task, t) {
      StepKeepsStale(mid, m, task, t);
    }
  }

  lemma {:induction false} IssuedStays(f: Fence, moves: seq<Move>, task: TaskId, t: Token)
    requires StoreRuns.Sound(f.db) && Issued(f.db, task, t)
    ensures Issued(Run(f, moves).db, task, t)
  {
    if moves != [] {
      IssuedStays(f, moves[..|moves| - 1], task, t);
      var mid, m := Run(f, moves[..|moves| - 1]), moves[|moves| - 1];
      StepKeepsAttempts(mid, m);
      StepIsRun(mid, m);
      assert Monotone(mid.db, Step(mid, m).db);
    }
  }

  lemma KeepsOn(f: Fence, m: Move, task: TaskId, t: Token, interval: int, offset: int, seen: Time)
    requires Keeping(f, task, t, interval, offset, seen) && 0 < interval && !WorkerFence.Stale(f, task, t)
    requires LivelyNext(m, task, t, interval, offset, seen)
    requires StoreRuns.Sound(Step(f, m).db) && t.leaseId in Step(f, m).db.leases
    requires !WorkerFence.Stale(Step(f, m), task, t)
    ensures Keeping(Step(f, m), task, t, interval, offset, if Own(m, task, t) then m.clock.tick else seen)
  {
    var after := Step(f, m);
    StepKeepsRegistered(f, m);
    StepKeepsAlone(f, m, task, t);
    IssuedStays(f, [m], task, t);
    assert [m][..0] == [] && Run(f, []) == f && Run(f, [m]) == after;
    if Own(m, task, t) {
      OwnLineIsHeard(f, m, task, t, offset, seen);
    } else {
      ElsewhereKeepsRow(f, m, task, t);
      ElsewhereKeepsBeat(f, m, task, t);
    }
  }

  /**
   A worker that writes a line at least every TTL - interval is heard: whatever else happens to other
   tasks, to the log and to the clock readings in between, as long as its lease is not taken away, each
   of its lines is accepted.
   */
  lemma HealthyWorkerIsHeard(f: Fence, moves: seq<Move>, task: TaskId, t: Token, interval: int, offset: int,
                             start: Time, m: Move)
    requires Keeping(f, task, t, interval, offset, start) && 0 < interval
    requires Lively(moves + [m], task, t, interval, offset, start) && Own(m, task, t)
    requires t.leaseId in Run(f, moves).db.leases && !WorkerFence.Stale(Run(f, moves), task, t)
    ensures LineStep(Run(f, moves), task, m.attempt, m.captured, m.interval, m.clock).1
  {
    assert (moves + [m])[..|moves + [m]| - 1] == moves;
    LivelyFront(moves + [m], task, t, interval, offset, start);
    LivelyRunsKeep(f, moves, task, t, interval, offset, start);
    OwnLineIsHeard(Run(f, moves), m, task, t, offset, LastLine(moves, task, t, start));
  }

  /** A launch that gets its lease starts a watcher in that condition. */
  lemma LaunchStartsHealthy(f: Fence, task: TaskId, a: AttemptId, owner: string, now: Time, id: LeaseId, tick: Time,
                            interval: int)
    requires StoreRuns.Sound(f.db) && Registered(f) && 0 < interval
    requires a in f.db.attempts && f.db.attempts[a].taskId == task && OneActive(f.db.leases)
    requires AcquireStep(f.db, a, owner, Some(TTL), now, id).1.Ok?
    ensures var after := Step(f, Launch(task, a, owner, now, id, tick));
      && task in after.leases
      && Keeping(after, task, TokenOf(after.leases[task]), interval, now - tick, tick)
  {
    var m := Launch(task, a, owner, now, id, tick);
    var after := Step(f, m);
    AcquiredRows(f.db, a, owner, Some(TTL), now, id);
    AcquireSucceedsIff(f.db, a, owner, Some(TTL), now, id);
    AcquiredIsHeld(f.db, a, owner, Some(TTL), now, id, now);
    StepKeepsRegistered(f, m);
    StepIsRun(f, m);
    assert after.leases[task] == after.db.leases[id];
    forall j | j in after.leases && j != task ensures after.leases[j].leaseId != id {
      assert f.leases[j].leaseId in f.db.leases;
    }
  }

  // ---------------------------------------------------------------- a longer silence

  /** A line read at one moment by all three clocks. */
  function LineAt(task: TaskId, t: Token, interval: int, tick: Time, offset: int): Move {
    Line(task, Some(t.attemptId), Some(t), interval, Clock(tick + offset, tick + offset, tick))
  }

  /**
   The bound is sharp: when a line came just before the next beat was due, the line after it is lost if
   the silence between the two is longer than TTL - interval, however patient the watchdog is.
   */
  lemma LongerSilenceIsLost(f: Fence, task: TaskId, t: Token, interval: int, offset: int, silence: int)
    requires Keeping(f, task, t, interval, offset, LastBeat(f, task)) && !WorkerFence.Stale(f, task, t)
    requires f.db.leases[t.leaseId].expiresAt == Some(LastBeat(f, task) + offset + TTL)
    requires 0 < interval <= TTL && silence > TTL - interval
    ensures var first := LineAt(task, t, interval, LastBeat(f, task) + interval - 1, offset);
      var next := LineAt(task, t, interval, LastBeat(f, task) + interval - 1 + silence, offset);
      && LineStep(f, task, first.attempt, first.captured, interval, first.clock) == (f, true)
      && Step(f, first) == f
      && !LineStep(Step(f, first), task, next.attempt, next.captured, interval, next.clock).1
  {
    var first := LineAt(task, t, interval, LastBeat(f, task) + interval - 1, offset);
    var next := LineAt(task, t, interval, LastBeat(f, task) + interval - 1 + silence, offset);
    AcceptedIffCurrent(f, task, t, interval, first.clock);
    AcceptedLineBeats(f, task, first.attempt, first.captured, interval, first.clock);
    AcceptedIffCurrent(f, task, t, interval, next.clock);
  }
}
