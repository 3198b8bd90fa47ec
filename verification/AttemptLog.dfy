/**
 What the log says of the attempts table. The source folds the log back into tasks and leases only
 (store/events.py); create_attempt and update_attempt log enough to rebuild the attempts as well.
 */
module AttemptLog {
  import opened Wrappers
  import opened States
  import opened Store
  import opened ExecutionLease
  import StoreRuns

  // ---------------------------------------------------------------- new rows, column by column

  /** NULL or a text. */
  predicate Reads(v: Value, s: Option<string>) {
    v == match s case None => Null case Some(x) => Text(x)
  }

  /** What a column of a new task reads; the input contract falls back to the one made for its dependencies. */
  predicate TaskReads(t: NewTask, c: Column, v: Value) {
    match c
    case Title => v == Text(t.title)
    case Brief => v == Text(t.brief)
    case Repo => v == Text(t.repo)
    case DeliveryMode => v == Text(t.deliveryMode)
    case VerifyCmd => Reads(v, t.verifyCmd)
    case OutputArtifacts => Reads(v, t.outputArtifacts)
    case OutputSchema => Reads(v, t.outputSchema)
    case InputContract => Reads(v, if t.inputContract.None? then t.dependencyInputContract else t.inputContract)
    case NodeVerifyCmd => Reads(v, t.nodeVerifyCmd)
    case RepairPolicy => Reads(v, t.repairPolicy)
    case Retries => v == Int(0)
    case MaxRetries => v == Int(t.maxRetries)
    case _ => v == Null
  }

  lemma InsertedRowReads(id: TaskId, t: NewTask, ts: Time, c: Column)
    ensures var cols := InsertedRow(id, t, ts).cols;
      (c in cols ==> TaskReads(t, c, cols[c])) && (c in UPDATABLE ==> c in cols)
  {
  }

  lemma NewTaskReads(db: Db, id: TaskId, t: NewTask, ts: Time, c: Column)
    requires CreateTask(db, id, t, ts).1.Ok?
    ensures var after := CreateTask(db, id, t, ts).0;
      && id !in db.tasks && after.tasks.Keys == db.tasks.Keys + {id} && after.tasks[id].state == Blocked
      && (c in after.tasks[id].cols ==> TaskReads(t, c, after.tasks[id].cols[c]))
      && (c in UPDATABLE ==> c in after.tasks[id].cols)
      && (forall j | j in db.tasks :: after.tasks[j] == db.tasks[j]) && after.deps == db.deps[id := t.dependsOn]
  {
    InsertedRowReads(id, t, ts, c);
  }

  const COLUMNS: set<Column> := ATTEMPT_COLUMNS + {RunId, BaseSha, CandidateBranch, ParentAttemptId}

  /** What a column of a new attempt reads. */
  function FirstValue(n: NewAttempt, c: Column): Value {
    match c
    case RunId => Text(n.runId)
    case BaseSha => Text(n.baseSha)
    case CandidateBranch => Text(n.candidateBranch)
    case ParentAttemptId => if n.parent == None then Null else Int(n.parent.value)
    case ExecutionContract => Text(n.executionContract)
    case SupervisorFeedback => if n.supervisorFeedback == None then Null else Text(n.supervisorFeedback.value)
    case Disposition => Text("created")
    case _ => Null
  }

  // ---------------------------------------------------------------- the fold

  /** One event of the log, read as what it says about attempts. */
  function FoldAttempt(attempts: map<AttemptId, Attempt>, e: Event): map<AttemptId, Attempt> {
    if !e.fact.Audit? || e.taskId.None? then attempts
    else match e.fact.audit
      case AttemptCreated(a, no, n) =>
        attempts[a := Attempt(e.taskId.value, no, map c | c in COLUMNS :: FirstValue(n, c), e.ts, e.ts)]
      case AttemptUpdated(a, fields) =>
        if a !in attempts then attempts
        else
          var row := attempts[a];
          var cols := map c | c in row.cols.Keys + fields.Keys :: if c in fields then fields[c] else row.cols[c];
          attempts[a := row.(cols := cols, updatedAt := e.ts)]
      case _ => attempts
  }

  function ReplayAttempts(log: seq<Event>): map<AttemptId, Attempt> {
    if log == [] then map[] else FoldAttempt(ReplayAttempts(log[..|log| - 1]), log[|log| - 1])
  }

  predicate AboutAttempt(fact: Fact) {
    fact.Audit? && (fact.audit.AttemptCreated? || fact.audit.AttemptUpdated?)
  }

  lemma {:induction false} OtherEvents(log: seq<Event>, more: seq<Event>)
    requires log <= more && forall i | |log| <= i < |more| :: !AboutAttempt(more[i].fact)
    ensures ReplayAttempts(more) == ReplayAttempts(log)
  {
    if |log| == |more| {
      assert log == more;
    } else {
      OtherEvents(log, more[..|more| - 1]);
    }
  }

  lemma FoldLast(log: seq<Event>, e: Event)
    ensures ReplayAttempts(log + [e]) == FoldAttempt(ReplayAttempts(log), e)
  {
    assert (log + [e])[..|log|] == log;
  }

  /** The columns that create_attempt fills. */
  predicate Filled(c: Column) {
    c in {RunId, BaseSha, CandidateBranch, ParentAttemptId, ExecutionContract, SupervisorFeedback, Disposition}
  }

  lemma FilledReads(id: TaskId, no: nat, n: NewAttempt, ts: Time, c: Column)
    requires Filled(c)
    ensures var cols := NewRow(id, no, n, ts).cols; c in cols && cols[c] == FirstValue(n, c)
  {
  }

  lemma UnfilledReads(id: TaskId, no: nat, n: NewAttempt, ts: Time, c: Column)
    requires !Filled(c)
    ensures var cols := NewRow(id, no, n, ts).cols; (c in cols <==> c in COLUMNS) && (c in cols ==> cols[c] == Null)
  {
  }

  lemma NewRowReads(id: TaskId, no: nat, n: NewAttempt, ts: Time)
    ensures NewRow(id, no, n, ts).cols == map c | c in COLUMNS :: FirstValue(n, c)
  {
    var cols := NewRow(id, no, n, ts).cols;
    forall c: Column ensures (c in cols <==> c in COLUMNS) && (c in cols ==> cols[c] == FirstValue(n, c)) {
      if Filled(c) {
        FilledReads(id, no, n, ts, c);
      } else {
        UnfilledReads(id, no, n, ts, c);
      }
    }
  }

  lemma CreationIsFolded(db: Db, a: AttemptId, id: TaskId, no: nat, n: NewAttempt, ts: Time)
    requires ReplayAttempts(db.log) == db.attempts
    ensures var after := CreateAttempt(db, a, id, no, n, ts).0; ReplayAttempts(after.log) == after.attempts
  {
    FoldLast(db.log, Event(ts, Some(id), Audit(AttemptCreated(a, no, n))));
    NewRowReads(id, no, n, ts);
  }

  lemma UpdateIsFolded(db: Db, a: AttemptId, fields: Fields, ts: Time)
    requires ReplayAttempts(db.log) == db.attempts
    ensures var after := UpdateAttempt(db, a, fields, ts).0; ReplayAttempts(after.log) == after.attempts
  {
    if a in db.attempts {
      var row := db.attempts[a];
      FoldLast(db.log, Event(ts, Some(row.taskId), Audit(AttemptUpdated(a, fields))));
      assert row.cols + fields
        == map c | c in row.cols.Keys + fields.Keys :: if c in fields then fields[c] else row.cols[c];
    }
  }

  // ---------------------------------------------------------------- whole runs

  /** Attempt events are written by the two operations that change attempts, and by nothing else. */
  predicate Honest(op: StoreRuns.Op) {
    op.Note? ==> !AboutAttempt(Audit(op.fact))
  }

  lemma OthersLeaveAttempts(db: Db, op: StoreRuns.Op)
    requires OneActive(db.leases) && Honest(op) && !op.AddAttempt? && !op.ChangeAttempt?
    ensures var after := StoreRuns.Step(db, op).0;
      && after.attempts == db.attempts && db.log <= after.log
      && forall i | |db.log| <= i < |after.log| :: !AboutAttempt(after.log[i].fact)
  {
  }

  lemma StepIsFolded(db: Db, op: StoreRuns.Op)
    requires OneActive(db.leases) && Honest(op) && ReplayAttempts(db.log) == db.attempts
    ensures var after := StoreRuns.Step(db, op).0; ReplayAttempts(after.log) == after.attempts
  {
    match op
    case AddAttempt(a, id, no, n, ts) => CreationIsFolded(db, a, id, no, n, ts);
    case ChangeAttempt(a, fields, ts) => UpdateIsFolded(db, a, fields, ts);
    case _ =>
      OthersLeaveAttempts(db, op);
      OtherEvents(db.log, StoreRuns.Step(db, op).0.log);
  }

  /** After any run the attempts table is what the log says of it, every column included. */
  lemma {:induction false} ReplayRebuildsAttempts(ops: seq<StoreRuns.Op>)
    requires forall i | 0 <= i < |ops| :: Honest(ops[i])
    ensures StoreRuns.Sound(EMPTY)
    ensures ReplayAttempts(StoreRuns.Run(EMPTY, ops).log) == StoreRuns.Run(EMPTY, ops).attempts
  {
    StoreRuns.EmptyIsSound();
    if ops != [] {
      var front := ops[..|ops| - 1];
      ReplayRebuildsAttempts(front);
      FencedHasOneActive(StoreRuns.Run(EMPTY, front));
      StepIsFolded(StoreRuns.Run(EMPTY, front), ops[|ops| - 1]);
    }
  }
}
