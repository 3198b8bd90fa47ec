/**
 The constraints of store/schema.sql over whole runs: what no sequence of accepted and rejected
 operations can break.
 */
module StoreSchema {
  import opened Wrappers
  import opened Sets
  import opened States
  import opened Store
  import opened ExecutionLease
  import Settlement
  import StoreRuns

  predicate NotNull(cols: Fields, c: Column) {
    c in cols && cols[c] != Null
  }

  /** The columns of a task that are declared NOT NULL, and the check on its delivery mode. */
  predicate TaskFits(row: TaskRow) {
    && NotNull(row.cols, Title) && NotNull(row.cols, Brief) && NotNull(row.cols, Repo)
    && NotNull(row.cols, Retries) && NotNull(row.cols, MaxRetries)
    && DeliveryMode in row.cols && row.cols[DeliveryMode] in {Text("pr"), Text("local"), Text("scout")}
  }

  /** The rows of task_deps: no pair twice, both ends known. */
  ghost predicate DepsFit(db: Db, t: TaskId) {
    && t in db.deps && NoDup(db.deps[t]) && forall d | d in db.deps[t] :: d in db.tasks
  }

  /** The columns of an attempt that are declared NOT NULL, its task and its parent. */
  ghost predicate AttemptFits(db: Db, a: AttemptId)
    requires a in db.attempts
  {
    var row := db.attempts[a];
    && row.taskId in db.tasks && NotNull(row.cols, RunId) && NotNull(row.cols, BaseSha)
    && NotNull(row.cols, CandidateBranch) && NotNull(row.cols, ExecutionContract) && NotNull(row.cols, Disposition)
    && ParentAttemptId in row.cols
    && (row.cols[ParentAttemptId] == Null
        || exists p: nat :: row.cols[ParentAttemptId] == Int(p) && p in db.attempts)
  }

  ghost predicate SchemaHolds(db: Db) {
    && db.deps.Keys == db.tasks.Keys
    && (forall t | t in db.tasks :: TaskFits(db.tasks[t]) && DepsFit(db, t))
    && (forall a | a in db.attempts :: AttemptFits(db, a))
  }

  // ---------------------------------------------------------------- one operation

  lemma InsertedFits(id: TaskId, t: NewTask, ts: Time)
    requires t.deliveryMode in DELIVERY_MODES
    ensures TaskFits(InsertedRow(id, t, ts))
  {
  }

  lemma AddTaskKeeps(db: Db, id: TaskId, t: NewTask, ts: Time)
    requires SchemaHolds(db)
    ensures SchemaHolds(CreateTask(db, id, t, ts).0)
  {
    var after := CreateTask(db, id, t, ts).0;
    if Insertable(db, id, t) {
      InsertedFits(id, t, ts);
      forall u | u in after.tasks ensures TaskFits(after.tasks[u]) && DepsFit(after, u) {
        if u != id {
          assert DepsFit(db, u);
        }
      }
      forall a | a in after.attempts ensures AttemptFits(after, a) {
        assert AttemptFits(db, a);
      }
    }
  }

  lemma MovedFits(row: TaskRow, fields: Fields)
    requires TaskFits(row) && fields.Keys <= UPDATABLE && !EmptiesRequired(fields)
    ensures TaskFits(row.(cols := row.cols + fields))
  {
  }

  lemma OneTaskFits(db: Db, after: Db, id: TaskId)
    requires SchemaHolds(db) && id in db.tasks && after.tasks.Keys == db.tasks.Keys && TaskFits(after.tasks[id])
    requires forall u | u in db.tasks && u != id :: after.tasks[u] == db.tasks[u]
    requires after.deps == db.deps && after.attempts == db.attempts
    ensures SchemaHolds(after)
  {
    forall u | u in after.tasks ensures TaskFits(after.tasks[u]) && DepsFit(after, u) {
      assert DepsFit(db, u);
    }
    forall a | a in after.attempts ensures AttemptFits(after, a) {
      assert AttemptFits(db, a);
    }
  }

  lemma MoveTaskKeeps(db: Db, id: TaskId, to: State, cause: nat, fields: Fields, ts: Time)
    requires SchemaHolds(db)
    ensures SchemaHolds(Transition(db, id, to, cause, fields, ts).0)
  {
    if TransitionError(db, id, to, fields).None? {
      MovedFits(db.tasks[id], fields);
      OneTaskFits(db, Transition(db, id, to, cause, fields, ts).0, id);
    }
  }

  lemma NewRowReads(id: TaskId, no: nat, n: NewAttempt, ts: Time)
    ensures var cols := NewRow(id, no, n, ts).cols;
      && NotNull(cols, RunId) && NotNull(cols, BaseSha) && NotNull(cols, CandidateBranch)
      && NotNull(cols, ExecutionContract) && NotNull(cols, Disposition) && ParentAttemptId in cols
      && cols[ParentAttemptId] == if n.parent.Some? then Int(n.parent.value) else Null
  {
  }

  /** One attempt is new or rewritten and fits; everything else is as before. */
  ghost predicate OneFits(db: Db, after: Db, a: AttemptId) {
    && after.tasks == db.tasks && after.deps == db.deps
    && after.attempts.Keys == db.attempts.Keys + {a} && AttemptFits(after, a)
    && forall b | b in db.attempts && b != a :: after.attempts[b] == db.attempts[b]
  }

  lemma NewRowFits(db: Db, a: AttemptId, id: TaskId, no: nat, n: NewAttempt, ts: Time)
    requires Attemptable(db, a, id, no, n)
    ensures OneFits(db, CreateAttempt(db, a, id, no, n, ts).0, a)
  {
    NewRowReads(id, no, n, ts);
  }

  /** Attempts that only lost their updatable columns to new values still fit. */
  lemma SameAttemptsFit(db: Db, after: Db, a: AttemptId)
    requires a in db.attempts && AttemptFits(db, a) && db.attempts.Keys <= after.attempts.Keys
    requires after.tasks == db.tasks && after.attempts[a] == db.attempts[a]
    ensures AttemptFits(after, a)
  {
  }

  lemma OneAttemptFits(db: Db, after: Db, a: AttemptId)
    requires SchemaHolds(db) && OneFits(db, after, a)
    ensures SchemaHolds(after)
  {
    forall u | u in after.tasks ensures TaskFits(after.tasks[u]) && DepsFit(after, u) {
      assert DepsFit(db, u);
    }
    forall b | b in after.attempts ensures AttemptFits(after, b) {
      if b != a {
        SameAttemptsFit(db, after, b);
      }
    }
  }

  lemma AddAttemptKeeps(db: Db, a: AttemptId, id: TaskId, no: nat, n: NewAttempt, ts: Time)
    requires SchemaHolds(db)
    ensures SchemaHolds(CreateAttempt(db, a, id, no, n, ts).0)
  {
    if Attemptable(db, a, id, no, n) {
      NewRowFits(db, a, id, no, n, ts);
      OneAttemptFits(db, CreateAttempt(db, a, id, no, n, ts).0, a);
    }
  }

  lemma UpdatedFits(db: Db, a: AttemptId, fields: Fields, ts: Time)
    requires a in db.attempts && AttemptFits(db, a) && UpdateError(db, a, fields).None?
    ensures OneFits(db, UpdateAttempt(db, a, fields, ts).0, a)
  {
    assert ParentAttemptId !in fields && RunId !in fields && BaseSha !in fields && CandidateBranch !in fields;
  }

  lemma ChangeAttemptKeeps(db: Db, a: AttemptId, fields: Fields, ts: Time)
    requires SchemaHolds(db)
    ensures SchemaHolds(UpdateAttempt(db, a, fields, ts).0)
  {
    if UpdateError(db, a, fields).None? {
      UpdatedFits(db, a, fields, ts);
      OneAttemptFits(db, UpdateAttempt(db, a, fields, ts).0, a);
    }
  }

  lemma SameTablesKeep(db: Db, after: Db)
    requires SchemaHolds(db) && after.tasks == db.tasks && after.deps == db.deps && after.attempts == db.attempts
    ensures SchemaHolds(after)
  {
    forall u | u in after.tasks ensures TaskFits(after.tasks[u]) && DepsFit(after, u) {
      assert DepsFit(db, u);
    }
    forall a | a in after.attempts ensures AttemptFits(after, a) {
      assert AttemptFits(db, a);
    }
  }

  lemma LeaseOpsLeaveTables(db: Db, op: StoreRuns.Op)
    requires OneActive(db.leases) && (op.Note? || op.Acquire? || op.Renew? || op.Release? || op.Recover?)
    ensures var after := StoreRuns.Step(db, op).0;
      after.tasks == db.tasks && after.deps == db.deps && after.attempts == db.attempts
  {
  }

  lemma StepKeepsSchema(db: Db, op: StoreRuns.Op)
    requires OneActive(db.leases) && SchemaHolds(db)
    ensures SchemaHolds(StoreRuns.Step(db, op).0)
  {
    match op
    case AddTask(id, t, ts) => AddTaskKeeps(db, id, t, ts);
    case MoveTask(id, to, cause, fields, ts) => MoveTaskKeeps(db, id, to, cause, fields, ts);
    case AddAttempt(a, id, no, n, ts) => AddAttemptKeeps(db, a, id, no, n, ts);
    case ChangeAttempt(a, fields, ts) => ChangeAttemptKeeps(db, a, fields, ts);
    case _ =>
      LeaseOpsLeaveTables(db, op);
      SameTablesKeep(db, StoreRuns.Step(db, op).0);
  }

  // ---------------------------------------------------------------- whole runs

  /** After any run every row satisfies the constraints of its table. */
  lemma {:induction false} SchemaAfterRun(ops: seq<StoreRuns.Op>)
    ensures StoreRuns.Sound(EMPTY) && SchemaHolds(StoreRuns.Run(EMPTY, ops))
  {
    StoreRuns.EmptyIsSound();
    if ops != [] {
      SchemaAfterRun(ops[..|ops| - 1]);
      FencedHasOneActive(StoreRuns.Run(EMPTY, ops[..|ops| - 1]));
      StepKeepsSchema(StoreRuns.Run(EMPTY, ops[..|ops| - 1]), ops[|ops| - 1]);
    }
  }

  /** So settlement, on a database that was only ever written by these operations, never misses a prerequisite. */
  lemma PrerequisitesArePresent(ops: seq<StoreRuns.Op>, t: TaskId)
    ensures StoreRuns.Sound(EMPTY) && Settlement.AllPresent(StoreRuns.Run(EMPTY, ops), t)
  {
    SchemaAfterRun(ops);
    var db := StoreRuns.Run(EMPTY, ops);
    if t in db.deps {
      assert DepsFit(db, t);
    }
  }
}
