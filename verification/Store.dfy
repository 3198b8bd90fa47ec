/**
 The event store (store/events.py, store/schema.sql): an append-only log, the tables derived
 from it, the one state-write path, and the two folds that rebuild the tables from the log.
 */
module Store {
  import opened Wrappers
  import opened States

  type TaskId = nat
  type AttemptId = nat
  type LeaseId = nat
  type Time = int

  /** The columns of tasks and of attempts other than keys, state and the two row times. */
  datatype Column =
    | Title | Brief | Repo | DeliveryMode | VerifyCmd | OutputArtifacts | OutputSchema
    | InputContract | NodeVerifyCmd | RepairPolicy | Retries | MaxRetries | Worktree
    | SessionId | BaseSha | RunId | CurrentAttemptId | CandidateSha | CandidateBranch
    | ParentAttemptId | WorkerDirty | FailureCause | FailureSignature | SupervisorFeedback
    | ExecutionContract | WorkerStartedAt | WorkerEndedAt | VerificationStartedAt
    | VerificationEndedAt | SupervisorStartedAt | SupervisorEndedAt | Disposition

  const UPDATABLE: set<Column> := {
    SessionId, Worktree, Retries, MaxRetries, BaseSha, Brief,
    RunId, CurrentAttemptId, CandidateSha, CandidateBranch
  }

  const ATTEMPT_COLUMNS: set<Column> := {
    CandidateSha, WorkerDirty, FailureCause, FailureSignature, SupervisorFeedback, ExecutionContract,
    WorkerStartedAt, WorkerEndedAt, VerificationStartedAt, VerificationEndedAt, SupervisorStartedAt,
    SupervisorEndedAt, Disposition
  }

  datatype Value = Null | Int(i: int) | Text(s: string)

  type Fields = map<Column, Value>

  datatype TaskRow = TaskRow(id: TaskId, state: State, cols: Fields, createdAt: Time, updatedAt: Time)

  /** The keyword arguments of create_task. */
  datatype NewTask = NewTask(
    title: string, brief: string, repo: string, deliveryMode: string, verifyCmd: Option<string>,
    maxRetries: int, dependsOn: seq<TaskId>, outputArtifacts: Option<string>,
    outputSchema: Option<string>, inputContract: Option<string>,
    dependencyInputContract: Option<string>, nodeVerifyCmd: Option<string>,
    repairPolicy: Option<string>)

  const DELIVERY_MODES: set<string> := {"pr", "local", "scout"}

  /** The payload of task.created. */
  datatype Definition = Definition(
    title: string, brief: string, repo: string, deliveryMode: string, verifyCmd: Option<string>,
    outputArtifacts: Option<string>, outputSchema: Option<string>, inputContract: Option<string>,
    nodeVerifyCmd: Option<string>, repairPolicy: Option<string>, maxRetries: int,
    dependsOn: seq<TaskId>)

  datatype LeaseStatus = Active | Released | Recovered

  datatype Lease = Lease(
    leaseId: LeaseId, attemptId: AttemptId, taskId: TaskId, generation: nat, ownerId: string,
    status: LeaseStatus, acquiredAt: Time, renewedAt: Time, expiresAt: Option<Time>,
    releasedAt: Option<Time>, releaseReason: Option<string>, createdAt: Time, updatedAt: Time)

  /** Facts that neither fold reads. */
  datatype AuditFact =
    | AttemptCreated(attempt: AttemptId, attemptNo: nat, identity: NewAttempt)
    | AttemptUpdated(attempt: AttemptId, fields: Fields)
    | DoneClaimed(claimedBy: Option<AttemptId>)
    | WorkerExited(exitedAttempt: Option<AttemptId>)
    | SlotAcquired(slotAttempt: AttemptId)
    | SlotReleased(slotAttempt: AttemptId)
    | Other(name: string)

  datatype Fact =
    | TaskCreated(definition: Definition)
    | StateChanged(frm: State, to: State, causeSeq: nat, fields: Fields)
    | LeaseAcquired(leaseId: LeaseId, attemptId: AttemptId, leaseTask: TaskId, generation: nat,
                    ownerId: string, acquiredAt: Time, renewedAt: Time, expiresAt: Option<Time>,
                    createdAt: Time)
    | LeaseRenewed(leaseId: LeaseId, renewedAt: Time, expiresAt: Option<Time>)
    | LeaseClosed(leaseId: LeaseId, status: LeaseStatus, releasedAt: Time, reason: string)
    | Audit(audit: AuditFact)

  /** One row of `events`; its seq is its 1-based position in the log. */
  datatype Event = Event(ts: Time, taskId: Option<TaskId>, fact: Fact)

  datatype Attempt = Attempt(taskId: TaskId, attemptNo: nat, cols: Fields, createdAt: Time, updatedAt: Time)

  /** What create_attempt is told about the attempt besides its task and number. */
  datatype NewAttempt = NewAttempt(
    runId: string, parent: Option<AttemptId>, baseSha: string, candidateBranch: string,
    executionContract: string, supervisorFeedback: Option<string>)

  /** The whole database at one moment. */
  datatype Db = Db(
    tasks: map<TaskId, TaskRow>, deps: map<TaskId, seq<TaskId>>,
    attempts: map<AttemptId, Attempt>, leases: map<LeaseId, Lease>, log: seq<Event>)

  const EMPTY := Db(map[], map[], map[], map[], [])

  datatype StoreError =
    | UnknownTask | UnknownAttempt | IllegalTransition | ForbiddenColumn | EmptyUpdate | IntegrityError

  // ---------------------------------------------------------------- create_task

  function OrNull(v: Option<string>): Value {
    match v case None => Null case Some(s) => Text(s)
  }

  /** The row the INSERT of create_task writes; columns it does not list default to NULL. */
  function InsertedRow(id: TaskId, t: NewTask, ts: Time): TaskRow {
    var contract := if t.inputContract.Some? then t.inputContract else t.dependencyInputContract;
    TaskRow(id, Blocked, map[
      Title := Text(t.title), Brief := Text(t.brief), Repo := Text(t.repo),
      DeliveryMode := Text(t.deliveryMode), VerifyCmd := OrNull(t.verifyCmd),
      OutputArtifacts := OrNull(t.outputArtifacts), OutputSchema := OrNull(t.outputSchema),
      InputContract := OrNull(contract), NodeVerifyCmd := OrNull(t.nodeVerifyCmd),
      RepairPolicy := OrNull(t.repairPolicy), Retries := Int(0), MaxRetries := Int(t.maxRetries),
      Worktree := Null, SessionId := Null, BaseSha := Null, RunId := Null,
      CurrentAttemptId := Null, CandidateSha := Null, CandidateBranch := Null], ts, ts)
  }

  function DefinitionOf(t: NewTask): Definition {
    Definition(t.title, t.brief, t.repo, t.deliveryMode, t.verifyCmd, t.outputArtifacts,
               t.outputSchema,
               if t.inputContract.Some? then t.inputContract else t.dependencyInputContract,
               t.nodeVerifyCmd, t.repairPolicy, t.maxRetries, t.dependsOn)
  }

  /** The constraints of the schema: primary keys, the delivery_mode CHECK, foreign keys. */
  predicate Insertable(db: Db, id: TaskId, t: NewTask) {
    && id !in db.tasks
    && t.deliveryMode in DELIVERY_MODES
    && forall i | 0 <= i < |t.dependsOn| ::
         (t.dependsOn[i] in db.tasks || t.dependsOn[i] == id) && t.dependsOn[i] !in t.dependsOn[..i]
  }

  function CreateTask(db: Db, id: TaskId, t: NewTask, ts: Time): (r: (Db, Result<TaskId, StoreError>)) {
    if !Insertable(db, id, t) then (db, Err(IntegrityError))
    else
      (db.(tasks := db.tasks[id := InsertedRow(id, t, ts)], deps := db.deps[id := t.dependsOn],
           log := db.log + [Event(ts, Some(id), TaskCreated(DefinitionOf(t)))]), Ok(id))
  }

  // ---------------------------------------------------------------- transition

  function TransitionError(db: Db, id: TaskId, to: State, fields: Fields): Option<StoreError> {
    if !(fields.Keys <= UPDATABLE) then Some(ForbiddenColumn)
    else if id !in db.tasks then Some(UnknownTask)
    else if !Legal(db.tasks[id].state, to) then Some(IllegalTransition)
    else if EmptiesRequired(fields) then Some(IntegrityError)
    else None
  }

  /** The three updatable task columns that may not be empty. */
  predicate EmptiesRequired(fields: Fields) {
    (Brief in fields && fields[Brief] == Null) || (Retries in fields && fields[Retries] == Null)
    || (MaxRetries in fields && fields[MaxRetries] == Null)
  }

  function Transition(db: Db, id: TaskId, to: State, cause: nat, fields: Fields, ts: Time)
    : (r: (Db, Result<nat, StoreError>))
  {
    match TransitionError(db, id, to, fields)
    case Some(e) => (db, Err(e))
    case None =>
      var row := db.tasks[id];
      (db.(tasks := db.tasks[id := row.(state := to, updatedAt := ts, cols := row.cols + fields)],
           log := db.log + [Event(ts, Some(id), StateChanged(row.state, to, cause, fields))]),
       Ok(|db.log| + 1))
  }

  // ---------------------------------------------------------------- attempts and audit events

  function AppendEvent(db: Db, id: Option<TaskId>, fact: AuditFact, ts: Time): Db {
    db.(log := db.log + [Event(ts, id, Audit(fact))])
  }

  /** The row of a new attempt; the columns it does not list start empty. */
  function NewRow(id: TaskId, attemptNo: nat, n: NewAttempt, ts: Time): Attempt {
    Attempt(id, attemptNo, map[
      RunId := Text(n.runId), BaseSha := Text(n.baseSha), CandidateBranch := Text(n.candidateBranch),
      ParentAttemptId := if n.parent.Some? then Int(n.parent.value) else Null,
      ExecutionContract := Text(n.executionContract), SupervisorFeedback := OrNull(n.supervisorFeedback),
      Disposition := Text("created"), CandidateSha := Null, WorkerDirty := Null, FailureCause := Null,
      FailureSignature := Null, WorkerStartedAt := Null, WorkerEndedAt := Null, VerificationStartedAt := Null,
      VerificationEndedAt := Null, SupervisorStartedAt := Null, SupervisorEndedAt := Null], ts, ts)
  }

  /** Keys: the id and the number within the task are unused, the task and the parent exist. */
  predicate Attemptable(db: Db, attempt: AttemptId, id: TaskId, attemptNo: nat, n: NewAttempt) {
    && attempt !in db.attempts && id in db.tasks
    && (n.parent.Some? ==> n.parent.value in db.attempts || n.parent.value == attempt)
    && forall a | a in db.attempts :: db.attempts[a].taskId == id ==> db.attempts[a].attemptNo != attemptNo
  }

  function CreateAttempt(db: Db, attempt: AttemptId, id: TaskId, attemptNo: nat, n: NewAttempt, ts: Time)
    : (r: (Db, Result<AttemptId, StoreError>))
  {
    if !Attemptable(db, attempt, id, attemptNo, n) then (db, Err(IntegrityError))
    else
      (AppendEvent(db.(attempts := db.attempts[attempt := NewRow(id, attemptNo, n, ts)]),
                   Some(id), AttemptCreated(attempt, attemptNo, n), ts), Ok(attempt))
  }

  /** The two attempt columns that may not be empty. */
  predicate LeavesBlank(fields: Fields) {
    (Disposition in fields && fields[Disposition] == Null)
    || (ExecutionContract in fields && fields[ExecutionContract] == Null)
  }

  function UpdateError(db: Db, attempt: AttemptId, fields: Fields): Option<StoreError> {
    if !(fields.Keys <= ATTEMPT_COLUMNS) then Some(ForbiddenColumn)
    else if fields == map[] then Some(EmptyUpdate)
    else if attempt !in db.attempts then Some(UnknownAttempt)
    else if LeavesBlank(fields) then Some(IntegrityError)
    else None
  }

  function UpdateAttempt(db: Db, attempt: AttemptId, fields: Fields, ts: Time)
    : (r: (Db, Result<nat, StoreError>))
  {
    match UpdateError(db, attempt, fields)
    case Some(e) => (db, Err(e))
    case None =>
      var row := db.attempts[attempt];
      (AppendEvent(db.(attempts := db.attempts[attempt := row.(cols := row.cols + fields, updatedAt := ts)]),
                   Some(row.taskId), AttemptUpdated(attempt, fields), ts), Ok(|db.log| + 1))
  }

  // ---------------------------------------------------------------- replay

  /** The row replay builds from a task.created payload. */
  function ReplayedRow(id: TaskId, d: Definition, ts: Time): TaskRow {
    TaskRow(id, Blocked, map[
      Title := Text(d.title), Brief := Text(d.brief), Repo := Text(d.repo),
      DeliveryMode := Text(d.deliveryMode), VerifyCmd := OrNull(d.verifyCmd),
      OutputArtifacts := OrNull(d.outputArtifacts), OutputSchema := OrNull(d.outputSchema),
      InputContract := OrNull(d.inputContract), NodeVerifyCmd := OrNull(d.nodeVerifyCmd),
      RepairPolicy := OrNull(d.repairPolicy), Retries := Int(0), MaxRetries := Int(d.maxRetries),
      Worktree := Null, SessionId := Null, BaseSha := Null, RunId := Null,
      CurrentAttemptId := Null, CandidateSha := Null, CandidateBranch := Null], ts, ts)
  }

  /** One step of the task fold; None is the KeyError of a state change of an unknown task. */
  function FoldTask(tasks: Option<map<TaskId, TaskRow>>, e: Event): Option<map<TaskId, TaskRow>> {
    if tasks.None? || e.taskId.None? then tasks
    else match e.fact
      case TaskCreated(d) => Some(tasks.value[e.taskId.value := ReplayedRow(e.taskId.value, d, e.ts)])
      case StateChanged(_, to, _, fields) =>
        if e.taskId.value !in tasks.value then None
        else
          var t := tasks.value[e.taskId.value];
          var kept := map c | c in fields && c in UPDATABLE :: fields[c];
          Some(tasks.value[e.taskId.value := t.(state := to, updatedAt := e.ts, cols := t.cols + kept)])
      case _ => tasks
  }

  function ReplayTasks(log: seq<Event>): Option<map<TaskId, TaskRow>> {
    if log == [] then Some(map[])
    else FoldTask(ReplayTasks(log[..|log| - 1]), log[|log| - 1])
  }

  function FoldLease(leases: Option<map<LeaseId, Lease>>, e: Event): Option<map<LeaseId, Lease>> {
    if leases.None? then None
    else match e.fact
      case LeaseAcquired(id, a, t, g, o, acquired, renewed, expires, created) =>
        Some(leases.value[id := Lease(id, a, t, g, o, Active, acquired, renewed, expires, None, None,
                                      created, e.ts)])
      case LeaseRenewed(id, renewed, expires) =>
        if id !in leases.value then None
        else Some(leases.value[id := leases.value[id].(renewedAt := renewed, expiresAt := expires,
                                                       updatedAt := e.ts)])
      case LeaseClosed(id, status, released, reason) =>
        if id !in leases.value then None
        else Some(leases.value[id := leases.value[id].(status := status, releasedAt := Some(released),
                                                       releaseReason := Some(reason), updatedAt := e.ts)])
      case _ => leases
  }

  function ReplayLeases(log: seq<Event>): Option<map<LeaseId, Lease>> {
    if log == [] then Some(map[])
    else FoldLease(ReplayLeases(log[..|log| - 1]), log[|log| - 1])
  }

  /** replay: the loop over the events. */
  method Replay(events: seq<Event>) returns (tasks: Option<map<TaskId, TaskRow>>)
    ensures tasks == ReplayTasks(events)
  {
    tasks := Some(map[]);
    for i := 0 to |events|
      invariant tasks == ReplayTasks(events[..i])
    {
      assert events[..i + 1][..i] == events[..i];
      tasks := FoldTask(tasks, events[i]);
    }
    assert events[..|events|] == events;
  }

  /** replay_leases: the loop over the events. */
  method ReplayLeaseRows(events: seq<Event>) returns (leases: Option<map<LeaseId, Lease>>)
    ensures leases == ReplayLeases(events)
  {
    leases := Some(map[]);
    for i := 0 to |events|
      invariant leases == ReplayLeases(events[..i])
    {
      assert events[..i + 1][..i] == events[..i];
      leases := FoldLease(leases, events[i]);
    }
    assert events[..|events|] == events;
  }

  lemma ReplayAppend(log: seq<Event>, e: Event)
    ensures ReplayTasks(log + [e]) == FoldTask(ReplayTasks(log), e)
    ensures ReplayLeases(log + [e]) == FoldLease(ReplayLeases(log), e)
  {
    assert (log + [e])[..|log|] == log;
  }

  // ---------------------------------------------------------------- state-change chains

  /** The (from, to) pairs of the task.state_changed events of one task, in log order. */
  function Changes(log: seq<Event>, id: TaskId): seq<(State, State)> {
    if log == [] then []
    else
      var e := log[|log| - 1];
      var before := Changes(log[..|log| - 1], id);
      if e.taskId == Some(id) && e.fact.StateChanged? then before + [(e.fact.frm, e.fact.to)] else before
  }

  /** One unbroken legal path of the state machine starting in blocked. */
  ghost predicate LegalChain(c: seq<(State, State)>) {
    && (|c| > 0 ==> c[0].0 == Blocked)
    && (forall i | 0 <= i < |c| :: Legal(c[i].0, c[i].1))
    && (forall i | 0 < i < |c| :: c[i].0 == c[i - 1].1)
  }

  function End(c: seq<(State, State)>): State {
    if c == [] then Blocked else c[|c| - 1].1
  }

  /** `c` enters the states of `path` in that order. */
  ghost predicate Enters(c: seq<(State, State)>, path: seq<State>)
    decreases |path|
  {
    path == [] || exists i | 0 <= i < |c| :: c[i].1 == path[|path| - 1] && Enters(c[..i], path[..|path| - 1])
  }

  lemma {:induction false} EntersMore(c: seq<(State, State)>, x: (State, State), path: seq<State>)
    requires Enters(c, path)
    ensures Enters(c + [x], path)
  {
    if path != [] {
      var i :| 0 <= i < |c| && c[i].1 == path[|path| - 1] && Enters(c[..i], path[..|path| - 1]);
      assert (c + [x])[..i] == c[..i];
    }
  }

  lemma EntersLast(c: seq<(State, State)>, x: (State, State), path: seq<State>)
    requires Enters(c, path)
    ensures Enters(c + [x], path + [x.1])
  {
    var d, p := c + [x], path + [x.1];
    assert d[|c|] == x && d[..|c|] == c && p[..|p| - 1] == path;
  }

  /** The states a chain must have entered, in order, to stand in `s`. */
  function Route(s: State): seq<State> {
    match s
    case Queued => [Queued]
    case Delivering => [Queued, Running, Delivering]
    case Delivered => [Queued, Running, Delivering, Delivered]
    case Blocked | Cancelled | DependencyBlocked => []
    case _ => [Queued, Running]
  }

  lemma StepPassesThrough(b: seq<(State, State)>, x: (State, State))
    requires Enters(b, Route(x.0)) && Legal(x.0, x.1)
    ensures Enters(b + [x], Route(x.1))
  {
    EntersMore(b, x, Route(x.0));
    EntersLast(b, x, Route(x.0));
    match x.1 {
      case Queued =>
        EntersLast(b, x, []);
        assert [] + [x.1] == Route(Queued);
      case Running =>
        if x.0 == Queued {
          assert Route(Queued) + [x.1] == Route(Running);
        }
      case Delivering =>
        assert Route(x.0) + [x.1] == Route(Delivering);
      case Delivered =>
        assert Route(x.0) + [x.1] == Route(Delivered);
      case Triage =>
        if x.0 == Delivering {
          BackFromDelivering(b, x);
        }
      case _ =>
    }
  }

  /** Whoever was delivering was running before. */
  lemma BackFromDelivering(b: seq<(State, State)>, x: (State, State))
    requires Enters(b, Route(Delivering))
    ensures Enters(b + [x], Route(State.Triage))
  {
    assert Route(Delivering)[..|Route(Delivering)| - 1] == Route(State.Triage);
    EntersPrefix(b, Route(Delivering));
    EntersMore(b, x, Route(State.Triage));
  }

  lemma {:induction false} EntersPrefix(c: seq<(State, State)>, path: seq<State>)
    requires path != [] && Enters(c, path)
    ensures Enters(c, path[..|path| - 1])
  {
    var i :| 0 <= i < |c| && c[i].1 == path[|path| - 1] && Enters(c[..i], path[..|path| - 1]);
    EntersLonger(c[..i], c, path[..|path| - 1]);
  }

  lemma {:induction false} EntersLonger(b: seq<(State, State)>, c: seq<(State, State)>, path: seq<State>)
    requires b <= c && Enters(b, path)
    ensures Enters(c, path)
    decreases |c|
  {
    if |b| < |c| {
      EntersLonger(b, c[..|c| - 1], path);
      EntersMore(c[..|c| - 1], c[|c| - 1], path);
      assert c == c[..|c| - 1] + [c[|c| - 1]];
    } else {
      assert b == c;
    }
  }

  /** Where a legal chain has got to tells what it must have passed through, in order. */
  lemma {:induction false} ChainPassesThrough(c: seq<(State, State)>)
    requires LegalChain(c)
    ensures Enters(c, Route(End(c)))
  {
    if c != [] {
      var b, x := c[..|c| - 1], c[|c| - 1];
      assert c == b + [x] && End(b) == x.0;
      ChainPassesThrough(b);
      StepPassesThrough(b, x);
    }
  }

  lemma TerminalIsLast(c: seq<(State, State)>, i: nat)
    requires LegalChain(c) && i < |c|
    ensures c[i].1 in TERMINAL ==> i == |c| - 1
  {
    if i + 1 < |c| {
      assert c[i + 1].0 == c[i].1;
    }
  }

  // ---------------------------------------------------------------- the live database

  class Database {
    var tasks: map<TaskId, TaskRow>
    var deps: map<TaskId, seq<TaskId>>
    var attempts: map<AttemptId, Attempt>
    var leases: map<LeaseId, Lease>
    var log: seq<Event>

    function Now(): Db reads this {
      Db(tasks, deps, attempts, leases, log)
    }

    constructor ()
      ensures Now() == EMPTY
    {
      tasks, deps, attempts, leases, log := map[], map[], map[], map[], [];
    }

    /** create_task: the row, its dependency edges one by one, then the event; all or nothing. */
    method InsertTask(id: TaskId, t: NewTask, ts: Time) returns (r: Result<TaskId, StoreError>)
      modifies this
      ensures (Now(), r) == CreateTask(old(Now()), id, t, ts)
    {
      if id in tasks || t.deliveryMode !in DELIVERY_MODES {
        return Err(IntegrityError);
      }
      var tasks0, deps0 := tasks, deps;
      tasks := tasks[id := InsertedRow(id, t, ts)];
      deps := deps[id := []];
      for i := 0 to |t.dependsOn|
        invariant tasks == tasks0[id := InsertedRow(id, t, ts)]
        invariant deps == deps0[id := t.dependsOn[..i]]
        invariant attempts == old(attempts) && leases == old(leases) && log == old(log)
        invariant forall j | 0 <= j < i ::
                    (t.dependsOn[j] in tasks0 || t.dependsOn[j] == id) && t.dependsOn[j] !in t.dependsOn[..j]
      {
        var dep := t.dependsOn[i];
        if dep !in tasks || dep in deps[id] {
          tasks, deps := tasks0, deps0;
          return Err(IntegrityError);
        }
        deps := deps[id := deps[id] + [dep]];
        assert t.dependsOn[..i] + [dep] == t.dependsOn[..i + 1];
      }
      assert t.dependsOn[..|t.dependsOn|] == t.dependsOn;
      log := log + [Event(ts, Some(id), TaskCreated(DefinitionOf(t)))];
      return Ok(id);
    }

    /** transition: checks first, then the UPDATE and the event in one transaction. */
    method Move(id: TaskId, to: State, cause: nat, fields: Fields, ts: Time)
      returns (r: Result<nat, StoreError>)
      modifies this
      ensures (Now(), r) == Transition(old(Now()), id, to, cause, fields, ts)
    {
      if exists c | c in fields.Keys :: c !in UPDATABLE {
        return Err(ForbiddenColumn);
      }
      if id !in tasks {
        return Err(UnknownTask);
      }
      var frm := tasks[id].state;
      if !Legal(frm, to) {
        return Err(IllegalTransition);
      }
      if EmptiesRequired(fields) {
        return Err(IntegrityError);
      }
      tasks := tasks[id := tasks[id].(state := to, updatedAt := ts, cols := tasks[id].cols + fields)];
      log := log + [Event(ts, Some(id), StateChanged(frm, to, cause, fields))];
      return Ok(|log|);
    }

    /** append_event */
    method Append(id: Option<TaskId>, fact: AuditFact, ts: Time) returns (seqNo: nat)
      modifies this`log
      ensures Now() == AppendEvent(old(Now()), id, fact, ts)
      ensures seqNo == |log|
    {
      log := log + [Event(ts, id, Audit(fact))];
      return |log|;
    }

    /** create_attempt */
    method InsertAttempt(attempt: AttemptId, id: TaskId, attemptNo: nat, n: NewAttempt, ts: Time)
      returns (r: Result<AttemptId, StoreError>)
      modifies this
      ensures (Now(), r) == CreateAttempt(old(Now()), attempt, id, attemptNo, n, ts)
    {
      if attempt in attempts || id !in tasks
         || (n.parent.Some? && n.parent.value !in attempts && n.parent.value != attempt)
         || exists a | a in attempts :: attempts[a].taskId == id && attempts[a].attemptNo == attemptNo
      {
        return Err(IntegrityError);
      }
      attempts := attempts[attempt := NewRow(id, attemptNo, n, ts)];
      log := log + [Event(ts, Some(id), Audit(AttemptCreated(attempt, attemptNo, n)))];
      return Ok(attempt);
    }

    /** update_attempt */
    method ChangeAttempt(attempt: AttemptId, fields: Fields, ts: Time) returns (r: Result<nat, StoreError>)
      modifies this
      ensures (Now(), r) == UpdateAttempt(old(Now()), attempt, fields, ts)
    {
      if exists c | c in fields.Keys :: c !in ATTEMPT_COLUMNS {
        return Err(ForbiddenColumn);
      }
      if fields == map[] {
        return Err(EmptyUpdate);
      }
      if attempt !in attempts {
        return Err(UnknownAttempt);
      }
      if LeavesBlank(fields) {
        return Err(IntegrityError);
      }
      var row := attempts[attempt];
      attempts := attempts[attempt := row.(cols := row.cols + fields, updatedAt := ts)];
      log := log + [Event(ts, Some(row.taskId), Audit(AttemptUpdated(attempt, fields)))];
      return Ok(|log|);
    }
  }
}
