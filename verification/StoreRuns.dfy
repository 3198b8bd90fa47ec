/**
 Whole runs over the database: any interleaving of task, attempt, audit and lease operations,
 accepted or rejected, starting from the empty database.
 */
module StoreRuns {
  import opened Wrappers
  import opened States
  import opened Store
  import opened ExecutionLease

  datatype Op =
    | AddTask(id: TaskId, task: NewTask, time: Time)
    | MoveTask(id: TaskId, to: State, cause: nat, fields: Fields, time: Time)
    | AddAttempt(attempt: AttemptId, id: TaskId, attemptNo: nat, identity: NewAttempt, time: Time)
    | ChangeAttempt(attempt: AttemptId, update: Fields, time: Time)
    | Note(about: Option<TaskId>, fact: AuditFact, time: Time)
    | Acquire(attempt: AttemptId, owner: string, ttl: Option<int>, time: Time, lease: LeaseId)
    | Renew(token: Token, ttl: Option<int>, time: Time)
    | Release(token: Token, reason: string, time: Time)
    | Recover(attempt: AttemptId, lease: LeaseId, generation: int, reason: string, time: Time)

  /** The log rebuilds both tables, every lease is fenced, every task moved along one legal chain. */
  ghost predicate Sound(db: Db) {
    && Fenced(db)
    && ReplayTasks(db.log) == Some(db.tasks)
    && ReplayLeases(db.log) == Some(db.leases)
    && forall id: TaskId :: TracksState(db, id)
  }

  ghost predicate TracksState(db: Db, id: TaskId) {
    var c := Changes(db.log, id);
    LegalChain(c) && (if id in db.tasks then End(c) == db.tasks[id].state else c == [])
  }

  function Apply(db: Db, op: Op): (r: (Db, bool))
    requires Sound(db)
    ensures Sound(r.0) && Monotone(db, r.0)
    ensures !r.1 ==> r.0 == db
  {
    StepIsSound(db, op);
    Step(db, op)
  }

  function Step(db: Db, op: Op): (Db, bool)
    requires OneActive(db.leases)
  {
    match op
    case AddTask(id, t, ts) => var (d, r) := CreateTask(db, id, t, ts); (d, r.Ok?)
    case MoveTask(id, to, c, f, ts) => var (d, r) := Transition(db, id, to, c, f, ts); (d, r.Ok?)
    case AddAttempt(a, id, n, i, ts) => var (d, r) := CreateAttempt(db, a, id, n, i, ts); (d, r.Ok?)
    case ChangeAttempt(a, u, ts) => var (d, r) := UpdateAttempt(db, a, u, ts); (d, r.Ok?)
    case Note(id, f, ts) => (AppendEvent(db, id, f, ts), true)
    case Acquire(a, o, ttl, now, id) => var (d, r) := AcquireStep(db, a, o, ttl, now, id); (d, r.Ok?)
    case Renew(t, ttl, now) => var (d, r) := RenewStep(db, t, ttl, now); (d, r.Ok?)
    case Release(t, reason, now) => var (d, r) := ReleaseStep(db, t, reason, now); (d, r.Ok?)
    case Recover(a, id, g, reason, now) => var (d, r) := RecoverStep(db, a, id, g, reason, now); (d, r.Ok?)
  }

  function Run(db: Db, ops: seq<Op>): (after: Db)
    requires Sound(db)
    ensures Sound(after) && Monotone(db, after)
  {
    if ops == [] then db
    else
      var before := Run(db, ops[..|ops| - 1]);
      var after := Apply(before, ops[|ops| - 1]).0;
      MonotoneTransitive(db, before, after);
      after
  }

  lemma MonotoneTransitive(a: Db, b: Db, c: Db)
    requires Monotone(a, b) && Monotone(b, c)
    ensures Monotone(a, c)
  {
    forall id | id in a.leases
      ensures && id in c.leases && SameIdentity(a.leases[id], c.leases[id])
              && (a.leases[id].status != Active ==> c.leases[id] == a.leases[id])
    {
      assert id in b.leases;
    }
  }

  lemma ChangesAppend(log: seq<Event>, e: Event, id: TaskId)
    ensures Changes(log + [e], id)
            == if e.taskId == Some(id) && e.fact.StateChanged? then Changes(log, id) + [(e.fact.frm, e.fact.to)]
               else Changes(log, id)
  {
    assert (log + [e])[..|log|] == log;
  }

  /** An event neither fold reads leaves both folds and every chain alone. */
  lemma QuietEvent(db: Db, after: Db, e: Event)
    requires Sound(db) && e.fact.Audit?
    requires after.log == db.log + [e] && after.tasks == db.tasks && after.leases == db.leases
    requires db.attempts.Keys <= after.attempts.Keys
    ensures Sound(after) && Monotone(db, after)
  {
    ReplayAppend(db.log, e);
    forall id: TaskId ensures TracksState(after, id) {
      ChangesAppend(db.log, e, id);
      assert TracksState(db, id);
    }
  }

  /** A lease event whose fold is the table update leaves tasks and chains alone. */
  lemma LeaseEvent(db: Db, after: Db, e: Event)
    requires Sound(db) && (e.fact.LeaseAcquired? || e.fact.LeaseRenewed? || e.fact.LeaseClosed?)
    requires after.log == db.log + [e] && after.tasks == db.tasks && after.attempts == db.attempts
    requires FoldLease(Some(db.leases), e) == Some(after.leases) && Fenced(after)
    ensures Sound(after)
  {
    ReplayAppend(db.log, e);
    forall id: TaskId ensures TracksState(after, id) {
      ChangesAppend(db.log, e, id);
      assert TracksState(db, id);
    }
  }

  lemma CreateTaskIsSound(db: Db, id: TaskId, t: NewTask, ts: Time)
    requires Sound(db)
    ensures var after := CreateTask(db, id, t, ts).0; Sound(after) && Monotone(db, after)
  {
    var after := CreateTask(db, id, t, ts).0;
    if Insertable(db, id, t) {
      var e := after.log[|db.log|];
      ReplayAppend(db.log, e);
      assert InsertedRow(id, t, ts) == ReplayedRow(id, DefinitionOf(t), ts);
      forall i: TaskId ensures TracksState(after, i) {
        ChangesAppend(db.log, e, i);
        assert TracksState(db, i);
      }
    }
  }

  lemma TransitionIsSound(db: Db, id: TaskId, to: State, cause: nat, fields: Fields, ts: Time)
    requires Sound(db)
    ensures var after := Transition(db, id, to, cause, fields, ts).0; Sound(after) && Monotone(db, after)
  {
    var after := Transition(db, id, to, cause, fields, ts).0;
    if TransitionError(db, id, to, fields).None? {
      var e := Event(ts, Some(id), StateChanged(db.tasks[id].state, to, cause, fields));
      ReplayAppend(db.log, e);
      assert (map c | c in fields && c in UPDATABLE :: fields[c]) == fields;
      forall i: TaskId ensures TracksState(after, i) {
        MoveIsTracked(db, after, id, i, e);
      }
    }
  }

  /** One legal state change continues the chain of its task and leaves the others alone. */
  lemma MoveIsTracked(db: Db, after: Db, id: TaskId, i: TaskId, e: Event)
    requires TracksState(db, i) && id in db.tasks && after.log == db.log + [e]
    requires e.taskId == Some(id) && e.fact.StateChanged? && e.fact.frm == db.tasks[id].state
    requires Legal(e.fact.frm, e.fact.to) && after.tasks.Keys == db.tasks.Keys
    requires after.tasks[id].state == e.fact.to && forall j | j in db.tasks && j != id :: after.tasks[j] == db.tasks[j]
    ensures TracksState(after, i)
  {
    ChangesAppend(db.log, e, i);
    if i == id {
      ChainGoesOn(Changes(db.log, id), e.fact.frm, e.fact.to);
    }
  }

  lemma ChainGoesOn(c: seq<(State, State)>, frm: State, to: State)
    requires LegalChain(c) && End(c) == frm && Legal(frm, to)
    ensures LegalChain(c + [(frm, to)]) && End(c + [(frm, to)]) == to
  {
  }

  lemma ReclaimIsSound(db: Db, a: AttemptId, now: Time)
    requires Sound(db) && OneActive(db.leases)
    ensures Sound(Reclaim(db, a, now))
  {
    ReclaimKeeps(db, a, now);
    var cleared := Reclaim(db, a, now);
    if cleared != db {
      LeaseEvent(db, cleared, cleared.log[|db.log|]);
    }
  }

  lemma AcquireIsSound(db: Db, a: AttemptId, owner: string, ttl: Option<int>, now: Time, id: LeaseId)
    requires Sound(db)
    ensures OneActive(db.leases) && Sound(AcquireStep(db, a, owner, ttl, now, id).0)
  {
    AcquireKeeps(db, a, owner, ttl, now, id);
    var (after, r) := AcquireStep(db, a, owner, ttl, now, id);
    if r.Ok? {
      ReclaimIsSound(db, a, now);
      var cleared := Reclaim(db, a, now);
      LeaseEvent(cleared, after, after.log[|cleared.log|]);
    }
  }

  /** The operation keeps the database sound; rejected, it leaves it exactly as it was. */
  ghost predicate OpIsSound(db: Db, op: Op)
    requires OneActive(db.leases)
  {
    var (after, accepted) := Step(db, op);
    Sound(after) && Monotone(db, after) && (!accepted ==> after == db)
  }

  lemma AddTaskIsSound(db: Db, op: Op)
    requires Sound(db) && OneActive(db.leases) && op.AddTask?
    ensures OpIsSound(db, op)
  {
    CreateTaskIsSound(db, op.id, op.task, op.time);
  }

  lemma MoveTaskIsSound(db: Db, op: Op)
    requires Sound(db) && OneActive(db.leases) && op.MoveTask?
    ensures OpIsSound(db, op)
  {
    TransitionIsSound(db, op.id, op.to, op.cause, op.fields, op.time);
  }

  lemma AuditIsSound(db: Db, op: Op)
    requires Sound(db) && OneActive(db.leases) && (op.AddAttempt? || op.ChangeAttempt? || op.Note?)
    ensures OpIsSound(db, op)
  {
    var after := Step(db, op).0;
    if after != db {
      QuietEvent(db, after, after.log[|db.log|]);
    }
  }

  lemma RenewIsSound(db: Db, op: Op)
    requires Sound(db) && OneActive(db.leases) && op.Renew?
    ensures OpIsSound(db, op)
  {
    RenewKeeps(db, op.token, op.ttl, op.time);
    var after := RenewStep(db, op.token, op.ttl, op.time).0;
    if after != db {
      LeaseEvent(db, after, after.log[|db.log|]);
    }
  }

  lemma ReleaseIsSound(db: Db, op: Op)
    requires Sound(db) && OneActive(db.leases) && op.Release?
    ensures OpIsSound(db, op)
  {
    ReleaseKeeps(db, op.token, op.reason, op.time);
    var after := ReleaseStep(db, op.token, op.reason, op.time).0;
    if after != db {
      LeaseEvent(db, after, after.log[|db.log|]);
    }
  }

  lemma RecoverIsSound(db: Db, op: Op)
    requires Sound(db) && OneActive(db.leases) && op.Recover?
    ensures OpIsSound(db, op)
  {
    RecoverKeeps(db, op.attempt, op.lease, op.generation, op.reason, op.time);
    var after := RecoverStep(db, op.attempt, op.lease, op.generation, op.reason, op.time).0;
    if after != db {
      LeaseEvent(db, after, after.log[|db.log|]);
    }
  }

  lemma EveryOpIsSound(db: Db, op: Op)
    requires Sound(db) && OneActive(db.leases)
    ensures OpIsSound(db, op)
  {
    match op
    case AddTask(_, _, _) => AddTaskIsSound(db, op);
    case MoveTask(_, _, _, _, _) => MoveTaskIsSound(db, op);
    case Acquire(a, owner, ttl, now, id) =>
      AcquireIsSound(db, a, owner, ttl, now, id);
      AcquireKeeps(db, a, owner, ttl, now, id);
    case Renew(_, _, _) => RenewIsSound(db, op);
    case Release(_, _, _) => ReleaseIsSound(db, op);
    case Recover(_, _, _, _, _) => RecoverIsSound(db, op);
    case _ => AuditIsSound(db, op);
  }

  /** Every operation keeps the database sound; a rejected one leaves it exactly as it was. */
  lemma StepIsSound(db: Db, op: Op)
    requires Sound(db)
    ensures OneActive(db.leases)
    ensures var (after, accepted) := Step(db, op); Sound(after) && Monotone(db, after) && (!accepted ==> after == db)
  {
    FencedHasOneActive(db);
    EveryOpIsSound(db, op);
  }

  lemma EmptyIsSound()
    ensures Sound(EMPTY)
  {
    assert forall a: AttemptId :: MaxGeneration(EMPTY.leases, a) == 0;
  }

  /** Both replay folds rebuild the live tables after any run. */
  lemma ReplayRebuildsTables(ops: seq<Op>)
    ensures Sound(EMPTY)
    ensures ReplayTasks(Run(EMPTY, ops).log) == Some(Run(EMPTY, ops).tasks)
    ensures ReplayLeases(Run(EMPTY, ops).log) == Some(Run(EMPTY, ops).leases)
  {
    EmptyIsSound();
  }

  /** The state changes of every task form one legal chain, and its state tells what came before. */
  lemma TaskHistory(ops: seq<Op>, id: TaskId)
    ensures Sound(EMPTY)
    ensures var db := Run(EMPTY, ops); var c := Changes(db.log, id);
            && LegalChain(c)
            && (forall i | 0 <= i < |c| :: c[i].1 in TERMINAL ==> i == |c| - 1)
            && (id in db.tasks ==> End(c) == db.tasks[id].state && Enters(c, Route(db.tasks[id].state)))
  {
    EmptyIsSound();
    var db := Run(EMPTY, ops);
    assert TracksState(db, id);
    var c := Changes(db.log, id);
    ChainPassesThrough(c);
    forall i | 0 <= i < |c| ensures c[i].1 in TERMINAL ==> i == |c| - 1 {
      TerminalIsLast(c, i);
    }
  }

  // ---------------------------------------------------------------- fencing

  /** Every operation refuses, or leaves alone, a lease that is not active. */
  lemma InactiveIsRefused(db: Db, t: Token, ttl: Option<int>, reason: string, now: Time)
    requires t.leaseId in db.leases && db.leases[t.leaseId].status != Active
    ensures && Validate(db, t, now).Err?
            && RenewStep(db, t, ttl, now).0 == db && RenewStep(db, t, ttl, now).1.Err?
            && ReleaseStep(db, t, reason, now).0 == db
            && RecoverStep(db, t.attemptId, t.leaseId, t.generation, reason, now).0 == db
  {
  }

  /**
   Once a lease is released or recovered, no later run changes its row, no token naming it is
   validated or renewed, and releasing or recovering it again changes nothing.
   */
  lemma FencedForever(db: Db, ops: seq<Op>, t: Token, ttl: Option<int>, reason: string, now: Time)
    requires Sound(db) && t.leaseId in db.leases && db.leases[t.leaseId].status != Active
    ensures var after := Run(db, ops);
            && t.leaseId in after.leases
            && after.leases[t.leaseId] == db.leases[t.leaseId]
            && Validate(after, t, now).Err?
            && RenewStep(after, t, ttl, now).0 == after && RenewStep(after, t, ttl, now).1.Err?
            && ReleaseStep(after, t, reason, now).0 == after
            && RecoverStep(after, t.attemptId, t.leaseId, t.generation, reason, now).0 == after
  {
    assert Monotone(db, Run(db, ops));
    InactiveIsRefused(Run(db, ops), t, ttl, reason, now);
  }

  /** A lease with a newer generation beside it is fenced, now and after any run. */
  lemma SupersededForever(db: Db, ops: seq<Op>, older: LeaseId, newer: LeaseId, now: Time)
    requires Sound(db) && older in db.leases && newer in db.leases
    requires db.leases[older].attemptId == db.leases[newer].attemptId
    requires db.leases[older].generation < db.leases[newer].generation
    ensures var after := Run(db, ops);
            older in after.leases && after.leases[older] == db.leases[older]
            && Validate(after, TokenOf(db.leases[older]), now).Err?
  {
    var a := db.leases[older].attemptId;
    assert HasGeneration(db.leases, a, db.leases[newer].generation);
    assert db.leases[older].leaseId == older;
    FencedForever(db, ops, TokenOf(db.leases[older]), None, "", now);
  }

  /** The generations of `a` are exactly 1..n, each once, and only number n can be active. */
  ghost predicate GenerationsAre(leases: map<LeaseId, Lease>, a: AttemptId, n: nat) {
    && (forall g: nat :: HasGeneration(leases, a, g) <==> 1 <= g <= n)
    && (forall i, j | i in leases && j in leases && leases[i].attemptId == a && leases[j].attemptId == a
                      && leases[i].generation == leases[j].generation :: i == j)
    && (forall i | IsActiveFor(leases, a, i) :: leases[i].generation == n)
  }

  lemma GenerationsAfterRun(ops: seq<Op>, a: AttemptId)
    ensures Sound(EMPTY)
    ensures exists n :: GenerationsAre(Run(EMPTY, ops).leases, a, n)
  {
    EmptyIsSound();
    var leases := Run(EMPTY, ops).leases;
    assert GenerationsAre(leases, a, MaxGeneration(leases, a));
  }

  // ---------------------------------------------------------------- expiry

  /** One operation at a time past its expiry leaves the row alone or recovers it, and says which may. */
  lemma ExpiredStep(db: Db, op: Op, id: LeaseId)
    requires OneActive(db.leases)
    requires id in db.leases && db.leases[id].status == Active && Expired(db.leases[id], op.time)
    ensures var after := Step(db, op).0;
            id in after.leases
            && (after.leases[id] == db.leases[id]
                || (after.leases[id].status == Recovered
                    && ((op.Recover? && op.lease == id)
                        || (op.Acquire? && op.attempt == db.leases[id].attemptId))))
    ensures (op.Renew? || op.Release?) && op.token.leaseId == id ==> Step(db, op) == (db, false)
  {
    match op {
      case Acquire(a, o, ttl, now, l) =>
      case Recover(a, l, g, reason, now) =>
      case Renew(t, ttl, now) =>
      case Release(t, reason, now) =>
      case _ =>
    }
  }

  /** The row of an expired lease stays as it is until a recovery takes it out of active. */
  lemma {:induction false} ExpiredRowKept(db: Db, ops: seq<Op>, id: LeaseId, seen: Time)
    requires Sound(db) && id in db.leases && db.leases[id].status == Active && Expired(db.leases[id], seen)
    requires forall i | 0 <= i < |ops| :: ops[i].time >= seen
    ensures id in Run(db, ops).leases
    ensures Run(db, ops).leases[id] == db.leases[id] || Run(db, ops).leases[id].status == Recovered
  {
    if ops != [] {
      var before, op := Run(db, ops[..|ops| - 1]), ops[|ops| - 1];
      ExpiredRowKept(db, ops[..|ops| - 1], id, seen);
      var after := Apply(before, op).0;
      if before.leases[id].status == Active {
        StepIsSound(before, op);
        ExpiredStep(before, op, id);
      } else {
        assert Monotone(before, after);
      }
    }
  }

  /** Expiry is irrevocable when the clock never runs back before the moment it was seen. */
  lemma ExpiredForever(db: Db, ops: seq<Op>, seen: Time, t: Token, ttl: Option<int>, reason: string, now: Time)
    requires Sound(db) && t.leaseId in db.leases
    requires db.leases[t.leaseId].status == Active && Expired(db.leases[t.leaseId], seen)
    requires now >= seen && forall i | 0 <= i < |ops| :: ops[i].time >= seen
    ensures var after := Run(db, ops);
            && Validate(after, t, now).Err?
            && RenewStep(after, t, ttl, now).0 == after && RenewStep(after, t, ttl, now).1.Err?
            && t.leaseId in after.leases
            && (after.leases[t.leaseId].status == Active ==>
                  ReleaseStep(after, t, reason, now).0 == after && ReleaseStep(after, t, reason, now).1.Err?)
  {
    ExpiredRowKept(db, ops, t.leaseId, seen);
    LapsedIsRefused(Run(db, ops), t, ttl, reason, now);
  }

  /** A lease that is closed or past its expiry can be neither validated, nor renewed, nor released while active. */
  lemma LapsedIsRefused(db: Db, t: Token, ttl: Option<int>, reason: string, now: Time)
    requires t.leaseId in db.leases && (db.leases[t.leaseId].status != Active || Expired(db.leases[t.leaseId], now))
    ensures Validate(db, t, now).Err?
    ensures RenewStep(db, t, ttl, now).0 == db && RenewStep(db, t, ttl, now).1.Err?
    ensures db.leases[t.leaseId].status == Active ==>
              ReleaseStep(db, t, reason, now).0 == db && ReleaseStep(db, t, reason, now).1.Err?
  {
  }

  // ---------------------------------------------------------------- attempts

  /** The identity of an attempt: task, number, and every column outside the updatable ones. */
  predicate SameAttempt(a: Attempt, b: Attempt) {
    a.taskId == b.taskId && a.attemptNo == b.attemptNo && a.createdAt == b.createdAt
    && a.cols - ATTEMPT_COLUMNS == b.cols - ATTEMPT_COLUMNS
  }

  lemma UpdateKeepsIdentity(db: Db, attempt: AttemptId, fields: Fields, ts: Time, a: AttemptId)
    requires a in db.attempts
    ensures var after := UpdateAttempt(db, attempt, fields, ts).0;
      a in after.attempts && SameAttempt(db.attempts[a], after.attempts[a])
  {
    if attempt == a && UpdateError(db, a, fields).None? {
      var before := db.attempts[a].cols;
      assert before - ATTEMPT_COLUMNS == (before + fields) - ATTEMPT_COLUMNS;
    }
  }

  lemma StepKeepsIdentity(db: Db, op: Op, a: AttemptId)
    requires OneActive(db.leases) && a in db.attempts
    ensures a in Step(db, op).0.attempts && SameAttempt(db.attempts[a], Step(db, op).0.attempts[a])
  {
    if op.ChangeAttempt? {
      UpdateKeepsIdentity(db, op.attempt, op.update, op.time, a);
    }
  }

  /** An attempt is never removed, and its identity never changes, in any run. */
  lemma {:induction false} AttemptIdentityForever(db: Db, ops: seq<Op>, a: AttemptId)
    requires Sound(db) && a in db.attempts
    ensures a in Run(db, ops).attempts && SameAttempt(db.attempts[a], Run(db, ops).attempts[a])
  {
    if ops != [] {
      AttemptIdentityForever(db, ops[..|ops| - 1], a);
      FencedHasOneActive(Run(db, ops[..|ops| - 1]));
      StepKeepsIdentity(Run(db, ops[..|ops| - 1]), ops[|ops| - 1], a);
    }
  }

  predicate NumbersDistinct(db: Db) {
    forall a, b | a in db.attempts && b in db.attempts && db.attempts[a].taskId == db.attempts[b].taskId
                  && db.attempts[a].attemptNo == db.attempts[b].attemptNo :: a == b
  }

  /** Only the creation of an attempt adds one. */
  lemma OthersAddNone(db: Db, op: Op)
    requires OneActive(db.leases) && !op.AddAttempt?
    ensures Step(db, op).0.attempts.Keys == db.attempts.Keys
  {
  }

  lemma CreateKeepsNumbers(db: Db, attempt: AttemptId, id: TaskId, no: nat, n: NewAttempt, ts: Time)
    requires NumbersDistinct(db)
    ensures NumbersDistinct(CreateAttempt(db, attempt, id, no, n, ts).0)
  {
  }

  lemma SameAttemptsKeepNumbers(db: Db, after: Db)
    requires NumbersDistinct(db) && after.attempts.Keys == db.attempts.Keys
    requires forall a | a in db.attempts :: SameAttempt(db.attempts[a], after.attempts[a])
    ensures NumbersDistinct(after)
  {
  }

  lemma StepKeepsNumbers(db: Db, op: Op)
    requires OneActive(db.leases) && NumbersDistinct(db)
    ensures NumbersDistinct(Step(db, op).0)
  {
    if op.AddAttempt? {
      CreateKeepsNumbers(db, op.attempt, op.id, op.attemptNo, op.identity, op.time);
    } else {
      OthersAddNone(db, op);
      forall a | a in db.attempts ensures SameAttempt(db.attempts[a], Step(db, op).0.attempts[a]) {
        StepKeepsIdentity(db, op, a);
      }
      SameAttemptsKeepNumbers(db, Step(db, op).0);
    }
  }

  /** After any run no two attempts of a task share a number. */
  lemma {:induction false} AttemptNumbersAreDistinct(ops: seq<Op>)
    ensures Sound(EMPTY) && NumbersDistinct(Run(EMPTY, ops))
  {
    EmptyIsSound();
    if ops != [] {
      AttemptNumbersAreDistinct(ops[..|ops| - 1]);
      FencedHasOneActive(Run(EMPTY, ops[..|ops| - 1]));
      StepKeepsNumbers(Run(EMPTY, ops[..|ops| - 1]), ops[|ops| - 1]);
    }
  }
}
