/**
 Dependency settlement (advance_dependency_states in scheduler/core.py): a loop that moves
 blocked rows to queued or dependency_blocked while it scans them, until nothing changes.
 */
module Settlement {
  import opened Wrappers
  import opened Sets
  import opened States
  import opened Store
  import opened Graph
  import StoreRuns

  const SETTLED: set<State> := {NeedsHuman, Delivered, Failed, Cancelled, DependencyBlocked}

  datatype SettleError = MissingPrerequisite(task: TaskId, prerequisite: TaskId)

  /** The two parameters of a call: the verdict on each task's upstream interfaces, and block_needs_human. */
  datatype Policy = Policy(passes: TaskId -> bool, blockNeedsHuman: bool)

  predicate IsBlocking(s: State, p: Policy) {
    s in {Failed, Cancelled, DependencyBlocked} || (p.blockNeedsHuman && s == NeedsHuman)
  }

  function DepsOf(db: Db, t: TaskId): seq<TaskId> {
    if t in db.deps then db.deps[t] else []
  }

  predicate IsBlocked(db: Db, t: TaskId) {
    t in db.tasks && db.tasks[t].state == Blocked
  }

  predicate AllPresent(db: Db, t: TaskId) {
    forall d | d in DepsOf(db, t) :: d in db.tasks
  }

  predicate AllDelivered(db: Db, t: TaskId) {
    forall d | d in DepsOf(db, t) :: d in db.tasks && db.tasks[d].state == Delivered
  }

  predicate SomeBlocking(db: Db, t: TaskId, p: Policy) {
    exists d | d in DepsOf(db, t) :: d in db.tasks && IsBlocking(db.tasks[d].state, p)
  }

  // ---------------------------------------------------------------- one row

  datatype Decision = Fail(missing: TaskId) | Queue | Block | Wait

  /** The prerequisites are read in the order of their ids, so the smallest absent one is reported. */
  function FirstMissing(db: Db, deps: seq<TaskId>): (d: TaskId)
    requires exists d :: d in deps && d !in db.tasks
    ensures d in deps && d !in db.tasks && forall e | e in deps && e !in db.tasks :: d <= e
  {
    var absent := set d | d in deps && d !in db.tasks;
    assert forall e | e in deps && e !in db.tasks :: e in absent;
    MinOf(absent)
  }

  function Decide(db: Db, t: TaskId, p: Policy): Decision {
    var deps := DepsOf(db, t);
    if deps == [] then Queue
    else if !AllPresent(db, t) then Fail(FirstMissing(db, deps))
    else if SomeBlocking(db, t, p) then Block
    else if AllDelivered(db, t) then (if p.passes(t) then Queue else Block)
    else Wait
  }

  /** The verdict on the upstream interfaces, recorded when it is asked for. */
  function Checked(db: Db, t: TaskId, p: Policy, now: Time): Db {
    if DepsOf(db, t) != [] && AllPresent(db, t) && !SomeBlocking(db, t, p) && AllDelivered(db, t)
    then AppendEvent(db, Some(t), Other(if p.passes(t) then "interface.validation_passed"
                                        else "interface.validation_failed"), now)
    else db
  }

  /** The events and the state write of one decision. */
  function SettleStep(db: Db, t: TaskId, p: Policy, now: Time): Db {
    var d := Decide(db, t, p);
    var checked := Checked(db, t, p, now);
    match d
    case Queue =>
      var noted := AppendEvent(checked, Some(t), Other("dep.satisfied"), now);
      Transition(noted, t, Queued, |noted.log|, map[], now).0
    case Block =>
      var noted := AppendEvent(checked, Some(t), Other("dep.blocked"), now);
      Transition(noted, t, DependencyBlocked, |noted.log|, map[], now).0
    case _ => checked
  }

  method SettleOne(db: Database, t: TaskId, p: Policy, now: Time) returns (r: Result<bool, SettleError>)
    requires IsBlocked(db.Now(), t)
    modifies db
    ensures db.Now() == SettleStep(old(db.Now()), t, p, now)
    ensures match Decide(old(db.Now()), t, p)
            case Fail(d) => r == Err(MissingPrerequisite(t, d))
            case Wait => r == Ok(false)
            case _ => r == Ok(true)
  {
    var deps := if t in db.deps then db.deps[t] else [];
    if deps == [] {
      var cause := db.Append(Some(t), Other("dep.satisfied"), now);
      var moved := db.Move(t, Queued, cause, map[], now);
      return Ok(true);
    }
    if exists d :: d in deps && d !in db.tasks {
      return Err(MissingPrerequisite(t, FirstMissing(db.Now(), deps)));
    }
    if exists d | d in deps :: IsBlocking(db.tasks[d].state, p) {
      var cause := db.Append(Some(t), Other("dep.blocked"), now);
      var moved := db.Move(t, DependencyBlocked, cause, map[], now);
      return Ok(true);
    }
    if forall d | d in deps :: db.tasks[d].state == Delivered {
      if !p.passes(t) {
        var failed := db.Append(Some(t), Other("interface.validation_failed"), now);
        var cause := db.Append(Some(t), Other("dep.blocked"), now);
        var moved := db.Move(t, DependencyBlocked, cause, map[], now);
        return Ok(true);
      }
      var passed := db.Append(Some(t), Other("interface.validation_passed"), now);
      var cause := db.Append(Some(t), Other("dep.satisfied"), now);
      var moved := db.Move(t, Queued, cause, map[], now);
      return Ok(true);
    }
    return Ok(false);
  }

  // ---------------------------------------------------------------- the least fixpoint

  /** `t` must fall once the tasks of `s` have fallen. */
  ghost predicate Falls(db: Db, p: Policy, s: set<TaskId>, t: TaskId) {
    IsBlocked(db, t)
    && (SomeBlocking(db, t, p)
        || (exists d | d in DepsOf(db, t) :: d in s)
        || (DepsOf(db, t) != [] && AllDelivered(db, t) && !p.passes(t)))
  }

  ghost predicate ClosedUnderFalling(db: Db, p: Policy, s: set<TaskId>) {
    forall t | t in db.tasks && Falls(db, p, s, t) :: t in s
  }

  /** In every set closed under falling, hence in the least one. */
  ghost predicate Doomed(db: Db, p: Policy, t: TaskId) {
    t in db.tasks && forall s | ClosedUnderFalling(db, p, s) :: t in s
  }

  ghost predicate Ready(db: Db, p: Policy, t: TaskId) {
    DepsOf(db, t) == [] || (AllDelivered(db, t) && p.passes(t))
  }

  /** `after` is `before` with some blocked rows moved; nothing else in the tables differs. */
  ghost predicate OnlyMoved(before: Db, after: Db) {
    && after.tasks.Keys == before.tasks.Keys && after.deps == before.deps
    && after.attempts == before.attempts && after.leases == before.leases && before.log <= after.log
    && (forall t | t in before.tasks :: SameButState(before.tasks[t], after.tasks[t]))
    && (forall t | t in before.tasks && before.tasks[t].state != Blocked :: after.tasks[t] == before.tasks[t])
  }

  predicate SameButState(a: TaskRow, b: TaskRow) {
    a.id == b.id && a.cols == b.cols && a.createdAt == b.createdAt
    && (b == a || b.state in {Queued, DependencyBlocked})
  }

  /** Every move so far is one the least fixpoint makes. */
  ghost predicate Justified(before: Db, p: Policy, after: Db) {
    && OnlyMoved(before, after)
    && (forall t | IsBlocked(before, t) && after.tasks[t].state == Queued :: Ready(before, p, t))
    && (forall t | IsBlocked(before, t) && after.tasks[t].state == DependencyBlocked :: Doomed(before, p, t))
  }

  /** Nothing is left to decide. */
  ghost predicate AtRest(db: Db, p: Policy) {
    forall t | t in db.tasks && IsBlocked(db, t) :: Decide(db, t, p) == Wait
  }

  /** The exact result of a settled call. */
  ghost predicate IsLeastFixpoint(before: Db, p: Policy, after: Db) {
    && OnlyMoved(before, after)
    && forall t | t in before.tasks && IsBlocked(before, t) ::
         && (after.tasks[t].state == DependencyBlocked <==> Doomed(before, p, t))
         && (after.tasks[t].state == Queued <==> Ready(before, p, t))
  }

  // ---------------------------------------------------------------- what falling means

  /** Legal moves of one task, state after state. */
  ghost predicate LegalMoves(w: seq<State>) {
    |w| > 0 && forall i | 0 < i < |w| :: Legal(w[i - 1], w[i])
  }

  /** Some legal future of a task in this state ends with its delivery. */
  ghost predicate Deliverable(s: State) {
    exists w :: LegalMoves(w) && w[0] == s && w[|w| - 1] == Delivered
  }

  /** The rest of the way from each state that is not terminal. */
  function WayToDelivered(s: State): seq<State> {
    match s
    case Blocked => [Blocked, Queued, Running, Verifying, Delivering, Delivered]
    case Queued => [Queued, Running, Verifying, Delivering, Delivered]
    case Running => [Running, Verifying, Delivering, Delivered]
    case Verifying => [Verifying, Delivering, Delivered]
    case Delivering => [Delivering, Delivered]
    case Triage => [State.Triage, Running, Verifying, Delivering, Delivered]
    case NeedsHuman => [NeedsHuman, Delivering, Delivered]
    case _ => [s]
  }

  lemma TerminalStays(s: State, w: seq<State>)
    requires s in TERMINAL && LegalMoves(w) && w[0] == s
    ensures w == [s]
  {
    assert |w| > 1 ==> Legal(w[0], w[1]);
  }

  lemma OthersAreDeliverable(s: State)
    requires s !in TERMINAL || s == Delivered
    ensures Deliverable(s)
  {
    var w := WayToDelivered(s);
    assert LegalMoves(w) && w[0] == s && w[|w| - 1] == Delivered;
  }

  /**
   A prerequisite blocks its dependants exactly when it can no longer be delivered, or when it waits for
   a person and people are not waited for.
   */
  lemma BlockingIffUndeliverable(s: State, p: Policy)
    ensures IsBlocking(s, p) <==> !Deliverable(s) || (p.blockNeedsHuman && s == NeedsHuman)
  {
    if s in TERMINAL && s != Delivered {
      forall w | LegalMoves(w) && w[0] == s ensures w[|w| - 1] != Delivered {
        TerminalStays(s, w);
      }
    } else {
      OthersAreDeliverable(s);
    }
  }

  /** Why task t, the last of a walk, stops every blocked task before it. */
  ghost predicate DeadEnd(db: Db, p: Policy, t: TaskId) {
    && t in db.tasks
    && (|| !Deliverable(db.tasks[t].state)
        || (p.blockNeedsHuman && db.tasks[t].state == NeedsHuman)
        || (db.tasks[t].state == Blocked && DepsOf(db, t) != [] && !p.passes(t)
            && forall d | d in DepsOf(db, t) :: d in db.tasks && db.tasks[d].state == Delivered))
  }

  /** From prerequisite to prerequisite, through tasks that are blocked, to a dead end. */
  ghost predicate DeadWalk(db: Db, p: Policy, w: seq<TaskId>) {
    && |w| > 0 && DeadEnd(db, p, w[|w| - 1])
    && (forall i | 0 <= i < |w| - 1 :: IsBlocked(db, w[i]))
    && (forall i | 0 < i < |w| :: w[i] in DepsOf(db, w[i - 1]))
  }

  ghost predicate LeadsToDeadEnd(db: Db, p: Policy, t: TaskId) {
    exists w :: DeadWalk(db, p, w) && w[0] == t
  }

  lemma LongerDeadWalk(db: Db, p: Policy, t: TaskId, d: TaskId)
    requires IsBlocked(db, t) && d in DepsOf(db, t) && LeadsToDeadEnd(db, p, d)
    ensures LeadsToDeadEnd(db, p, t)
  {
    var w :| DeadWalk(db, p, w) && w[0] == d;
    var v := [t] + w;
    assert forall i | 0 < i < |v| :: v[i] == w[i - 1];
    assert DeadWalk(db, p, v) && v[0] == t;
  }

  lemma DeadEndLeads(db: Db, p: Policy, t: TaskId)
    requires DeadEnd(db, p, t)
    ensures LeadsToDeadEnd(db, p, t)
  {
    assert DeadWalk(db, p, [t]) && [t][0] == t;
  }

  /** The tasks that lead to a dead end are closed under falling. */
  lemma FallingLeads(db: Db, p: Policy, s: set<TaskId>, t: TaskId)
    requires Falls(db, p, s, t) && forall d | d in s :: LeadsToDeadEnd(db, p, d)
    ensures LeadsToDeadEnd(db, p, t)
  {
    if SomeBlocking(db, t, p) {
      var d :| d in DepsOf(db, t) && d in db.tasks && IsBlocking(db.tasks[d].state, p);
      BlockingIffUndeliverable(db.tasks[d].state, p);
      DeadEndLeads(db, p, d);
      LongerDeadWalk(db, p, t, d);
    } else if d :| d in DepsOf(db, t) && d in s {
      LongerDeadWalk(db, p, t, d);
    } else {
      DeadEndLeads(db, p, t);
    }
  }

  lemma {:induction false} DeadWalkFalls(db: Db, p: Policy, s: set<TaskId>, w: seq<TaskId>)
    requires DeadWalk(db, p, w) && IsBlocked(db, w[0]) && ClosedUnderFalling(db, p, s)
    ensures w[0] in s
  {
    if |w| == 1 {
      BlockingIffUndeliverable(Blocked, p);
    } else {
      var rest := w[1..];
      assert rest[0] == w[1] && w[1] in DepsOf(db, w[0]);
      assert forall i | 0 < i < |rest| :: rest[i] == w[i + 1] && rest[i - 1] == w[i];
      assert rest[|rest| - 1] == w[|w| - 1];
      assert forall i | 0 <= i < |rest| - 1 :: IsBlocked(db, rest[i]);
      assert DeadWalk(db, p, rest);
      if IsBlocked(db, w[1]) {
        DeadWalkFalls(db, p, s, rest);
      } else {
        assert |rest| == 1;
        BlockingIffUndeliverable(db.tasks[w[1]].state, p);
      }
    }
    assert Falls(db, p, s, w[0]);
  }

  /**
   A blocked task is in the least fixpoint exactly when a walk through blocked tasks leads from it to a task
   that can no longer be delivered (or waits for a person nobody waits for), or to one whose prerequisites
   are all delivered and whose interface check fails.
   */
  lemma DoomedIff(db: Db, p: Policy, t: TaskId)
    requires IsBlocked(db, t)
    ensures Doomed(db, p, t) <==> LeadsToDeadEnd(db, p, t)
  {
    var s := set u | u in db.tasks && LeadsToDeadEnd(db, p, u);
    forall u | u in db.tasks && Falls(db, p, s, u) ensures u in s {
      FallingLeads(db, p, s, u);
    }
    assert ClosedUnderFalling(db, p, s);
    if w :| DeadWalk(db, p, w) && w[0] == t {
      forall c | ClosedUnderFalling(db, p, c) ensures t in c {
        DeadWalkFalls(db, p, c, w);
      }
    }
  }

  // ---------------------------------------------------------------- one row

  lemma MoveEffect(db: Db, t: TaskId, to: State, cause: nat, now: Time)
    requires IsBlocked(db, t) && to in {Queued, DependencyBlocked}
    ensures var after := Transition(db, t, to, cause, map[], now).0;
            && after.tasks == db.tasks[t := db.tasks[t].(state := to, updatedAt := now)]
            && after.deps == db.deps && after.attempts == db.attempts && after.leases == db.leases
            && db.log < after.log
  {
    assert db.tasks[t].cols + map[] == db.tasks[t].cols;
  }

  lemma NoteAndMoveEffect(db: Db, t: TaskId, name: string, to: State, now: Time)
    requires IsBlocked(db, t) && to in {Queued, DependencyBlocked}
    ensures var noted := AppendEvent(db, Some(t), Other(name), now);
            var after := Transition(noted, t, to, |noted.log|, map[], now).0;
            && after.tasks == db.tasks[t := db.tasks[t].(state := to, updatedAt := now)]
            && after.deps == db.deps && after.attempts == db.attempts && after.leases == db.leases
            && db.log < after.log
  {
    var noted := AppendEvent(db, Some(t), Other(name), now);
    MoveEffect(noted, t, to, |noted.log|, now);
  }

  lemma StepEffect(db: Db, t: TaskId, p: Policy, now: Time)
    requires IsBlocked(db, t)
    ensures var after := SettleStep(db, t, p, now); var d := Decide(db, t, p);
            && after.deps == db.deps && after.attempts == db.attempts && after.leases == db.leases
            && db.log <= after.log && (d == Queue || d == Block ==> db.log < after.log)
            && after.tasks == (if d == Queue then db.tasks[t := db.tasks[t].(state := Queued, updatedAt := now)]
                               else if d == Block
                               then db.tasks[t := db.tasks[t].(state := DependencyBlocked, updatedAt := now)]
                               else db.tasks)
            && ((d == Wait || d.Fail?) ==> after == db)
  {
    var checked := Checked(db, t, p, now);
    match Decide(db, t, p) {
      case Queue => NoteAndMoveEffect(checked, t, "dep.satisfied", Queued, now);
      case Block => NoteAndMoveEffect(checked, t, "dep.blocked", DependencyBlocked, now);
      case _ =>
    }
  }

  /** Noting an event and moving the row keep the log and the tables in step. */
  lemma NoteAndMoveIsSound(db: Db, t: TaskId, name: string, to: State, now: Time)
    requires StoreRuns.Sound(db)
    ensures var noted := AppendEvent(db, Some(t), Other(name), now);
            StoreRuns.Sound(Transition(noted, t, to, |noted.log|, map[], now).0)
  {
    var noted := AppendEvent(db, Some(t), Other(name), now);
    StoreRuns.QuietEvent(db, noted, noted.log[|db.log|]);
    StoreRuns.TransitionIsSound(noted, t, to, |noted.log|, map[], now);
  }

  lemma CheckedIsSound(db: Db, t: TaskId, p: Policy, now: Time)
    requires StoreRuns.Sound(db)
    ensures StoreRuns.Sound(Checked(db, t, p, now))
  {
    var checked := Checked(db, t, p, now);
    if checked != db {
      StoreRuns.QuietEvent(db, checked, checked.log[|db.log|]);
    }
  }

  /** One row keeps the log rebuilding the tables, the leases fenced and the chains legal. */
  lemma SettleStepIsSound(db: Db, t: TaskId, p: Policy, now: Time)
    requires StoreRuns.Sound(db)
    ensures StoreRuns.Sound(SettleStep(db, t, p, now))
  {
    CheckedIsSound(db, t, p, now);
    NoteAndMoveIsSound(Checked(db, t, p, now), t, "dep.satisfied", Queued, now);
    NoteAndMoveIsSound(Checked(db, t, p, now), t, "dep.blocked", DependencyBlocked, now);
  }

  // ---------------------------------------------------------------- why each row moved

  /** The event at i of the log is an audit event of that name about task t. */
  predicate Notes(log: seq<Event>, i: int, t: Option<TaskId>, name: string) {
    0 <= i < |log| && log[i].taskId == t && log[i].fact == Audit(Other(name))
  }

  /** A state change of this module names as its cause the event before it, which says why. */
  predicate Explained(db: Db, log: seq<Event>, i: int)
    requires 0 <= i < |log| && log[i].fact.StateChanged?
  {
    var (t, e) := (log[i].taskId, log[i].fact);
    && e.frm == Blocked && e.causeSeq == i && e.to in {Queued, DependencyBlocked}
    && Notes(log, i - 1, t, if e.to == Queued then "dep.satisfied" else "dep.blocked")
    && (e.to == Queued && t.Some? && DepsOf(db, t.value) != [] ==> Notes(log, i - 2, t, "interface.validation_passed"))
  }

  /** Every state change after the first |start| events is explained. */
  ghost predicate AllExplained(db: Db, start: seq<Event>, log: seq<Event>) {
    start <= log && forall i | |start| <= i < |log| && log[i].fact.StateChanged? :: Explained(db, log, i)
  }

  lemma ExplainedStays(db: Db, start: seq<Event>, mid: seq<Event>, log: seq<Event>)
    requires AllExplained(db, start, mid) && AllExplained(db, mid, log)
    ensures AllExplained(db, start, log)
  {
    forall i | |start| <= i < |log| && log[i].fact.StateChanged? ensures Explained(db, log, i) {
      if i < |mid| {
        assert forall j | 0 <= j < |mid| :: log[j] == mid[j];
        assert Explained(db, mid, i);
      }
    }
  }

  lemma MoveIsExplained(db: Db, t: TaskId, name: string, to: State, now: Time)
    requires IsBlocked(db, t) && to in {Queued, DependencyBlocked}
    ensures var noted := AppendEvent(db, Some(t), Other(name), now);
            Transition(noted, t, to, |noted.log|, map[], now).0.log
            == db.log + [Event(now, Some(t), Audit(Other(name))),
                         Event(now, Some(t), StateChanged(Blocked, to, |db.log| + 1, map[]))]
  {
  }

  lemma PairIsExplained(db: Db, log: seq<Event>, t: TaskId, name: string, to: State, now: Time)
    requires (to == Queued && name == "dep.satisfied") || (to == DependencyBlocked && name == "dep.blocked")
    requires to == Queued && DepsOf(db, t) != [] ==> Notes(log, |log| - 1, Some(t), "interface.validation_passed")
    ensures AllExplained(db, log, log + [Event(now, Some(t), Audit(Other(name))),
                                         Event(now, Some(t), StateChanged(Blocked, to, |log| + 1, map[]))])
  {
  }

  lemma CheckedIsExplained(db: Db, t: TaskId, p: Policy, now: Time)
    ensures var checked := Checked(db, t, p, now);
      && AllExplained(db, db.log, checked.log)
      && (Decide(db, t, p) == Queue && DepsOf(db, t) != []
          ==> Notes(checked.log, |checked.log| - 1, Some(t), "interface.validation_passed"))
  {
  }

  lemma MovedIsExplained(db: Db, checked: Db, t: TaskId, name: string, to: State, now: Time)
    requires IsBlocked(checked, t) && AllExplained(db, db.log, checked.log)
    requires (to == Queued && name == "dep.satisfied") || (to == DependencyBlocked && name == "dep.blocked")
    requires to == Queued && DepsOf(db, t) != []
             ==> Notes(checked.log, |checked.log| - 1, Some(t), "interface.validation_passed")
    ensures var noted := AppendEvent(checked, Some(t), Other(name), now);
            AllExplained(db, db.log, Transition(noted, t, to, |noted.log|, map[], now).0.log)
  {
    MoveIsExplained(checked, t, name, to, now);
    PairIsExplained(db, checked.log, t, name, to, now);
    var noted := AppendEvent(checked, Some(t), Other(name), now);
    ExplainedStays(db, db.log, checked.log, Transition(noted, t, to, |noted.log|, map[], now).0.log);
  }

  lemma StepIsExplained(db: Db, t: TaskId, p: Policy, now: Time)
    requires IsBlocked(db, t)
    ensures AllExplained(db, db.log, SettleStep(db, t, p, now).log)
  {
    var checked := Checked(db, t, p, now);
    CheckedIsExplained(db, t, p, now);
    match Decide(db, t, p)
    case Queue => MovedIsExplained(db, checked, t, "dep.satisfied", Queued, now);
    case Block => MovedIsExplained(db, checked, t, "dep.blocked", DependencyBlocked, now);
    case _ =>
  }

  lemma SettleKeepsExplained(first: Db, db: Db, t: TaskId, p: Policy, now: Time)
    requires AllExplained(first, first.log, db.log) && db.deps == first.deps && IsBlocked(db, t)
    ensures AllExplained(first, first.log, SettleStep(db, t, p, now).log)
  {
    StepIsExplained(db, t, p, now);
    SameDepsExplain(first, db, db.log, SettleStep(db, t, p, now).log);
    ExplainedStays(first, first.log, db.log, SettleStep(db, t, p, now).log);
  }

  lemma SameDepsExplain(first: Db, db: Db, start: seq<Event>, log: seq<Event>)
    requires AllExplained(db, start, log) && db.deps == first.deps
    ensures AllExplained(first, start, log)
  {
    forall i | |start| <= i < |log| && log[i].fact.StateChanged? ensures Explained(first, log, i) {
      assert Explained(db, log, i);
    }
  }

  // ---------------------------------------------------------------- one row keeps the fixpoint in reach

  lemma StepJustified(before: Db, p: Policy, db: Db, t: TaskId, now: Time)
    requires Justified(before, p, db) && IsBlocked(db, t)
    ensures Justified(before, p, SettleStep(db, t, p, now))
  {
    StepEffect(db, t, p, now);
    var after := SettleStep(db, t, p, now);
    assert IsBlocked(before, t);
    match Decide(db, t, p) {
      case Queue => QueuedIsReady(before, p, db, t);
      case Block => BlockedIsDoomed(before, p, db, t);
      case _ =>
    }
    assert OnlyMoved(before, after);
  }

  lemma QueuedIsReady(before: Db, p: Policy, db: Db, t: TaskId)
    requires Justified(before, p, db) && IsBlocked(db, t) && Decide(db, t, p) == Queue
    ensures Ready(before, p, t)
  {
    forall d | d in DepsOf(before, t) ensures d in before.tasks && before.tasks[d].state == Delivered {
      assert SameButState(before.tasks[d], db.tasks[d]);
    }
  }

  lemma BlockedIsDoomed(before: Db, p: Policy, db: Db, t: TaskId)
    requires Justified(before, p, db) && IsBlocked(db, t) && Decide(db, t, p) == Block
    ensures Doomed(before, p, t)
  {
    assert IsBlocked(before, t) && DepsOf(db, t) == DepsOf(before, t);
    forall s | ClosedUnderFalling(before, p, s) ensures t in s {
      if SomeBlocking(db, t, p) {
        var d :| d in DepsOf(db, t) && d in db.tasks && IsBlocking(db.tasks[d].state, p);
        assert SameButState(before.tasks[d], db.tasks[d]);
        assert IsBlocked(before, d) ==> Doomed(before, p, d);
      } else {
        forall d | d in DepsOf(before, t) ensures d in before.tasks && before.tasks[d].state == Delivered {
          assert SameButState(before.tasks[d], db.tasks[d]);
        }
      }
      assert Falls(before, p, s, t);
    }
  }

  /** Once at rest, the moves made are exactly the least fixpoint, in whatever order they were made. */
  lemma RestIsLeastFixpoint(before: Db, p: Policy, after: Db)
    requires Justified(before, p, after) && AtRest(after, p)
    ensures IsLeastFixpoint(before, p, after)
  {
    var fallen := set t | t in before.tasks && IsBlocked(before, t) && after.tasks[t].state == DependencyBlocked;
    forall t | t in before.tasks && Falls(before, p, fallen, t) ensures t in fallen {
      FallenStaysDown(before, p, after, fallen, t);
    }
    assert ClosedUnderFalling(before, p, fallen);
    forall t | t in before.tasks && IsBlocked(before, t)
      ensures after.tasks[t].state == DependencyBlocked <==> Doomed(before, p, t)
      ensures after.tasks[t].state == Queued <==> Ready(before, p, t)
    {
      assert Doomed(before, p, t) ==> t in fallen;
      if Ready(before, p, t) {
        ReadyIsQueued(before, p, after, fallen, t);
      }
    }
  }

  lemma FallenStaysDown(before: Db, p: Policy, after: Db, fallen: set<TaskId>, t: TaskId)
    requires Justified(before, p, after) && AtRest(after, p) && Falls(before, p, fallen, t)
    requires fallen == set u | u in before.tasks && IsBlocked(before, u) && after.tasks[u].state == DependencyBlocked
    ensures after.tasks[t].state == DependencyBlocked
  {
    assert SameButState(before.tasks[t], after.tasks[t]);
    if after.tasks[t].state == Blocked {
      assert Decide(after, t, p) == Wait;
      assert !SomeBlocking(after, t, p) && AllPresent(after, t);
      forall d | d in DepsOf(before, t)
        ensures d !in fallen && !IsBlocking(before.tasks[d].state, p)
        ensures before.tasks[d].state == Delivered ==> after.tasks[d].state == Delivered
      {
        assert !IsBlocking(after.tasks[d].state, p);
        assert SameButState(before.tasks[d], after.tasks[d]);
      }
      assert false;
    }
    if after.tasks[t].state == Queued {
      assert false;
    }
  }

  lemma ReadyIsQueued(before: Db, p: Policy, after: Db, fallen: set<TaskId>, t: TaskId)
    requires Justified(before, p, after) && AtRest(after, p) && IsBlocked(before, t) && Ready(before, p, t)
    requires fallen == set u | u in before.tasks && IsBlocked(before, u) && after.tasks[u].state == DependencyBlocked
    requires ClosedUnderFalling(before, p, fallen)
    ensures after.tasks[t].state == Queued
  {
    assert SameButState(before.tasks[t], after.tasks[t]);
    if after.tasks[t].state == Blocked {
      assert Decide(after, t, p) == Wait;
      forall d | d in DepsOf(before, t) ensures after.tasks[d].state == Delivered {
        assert d in before.tasks;
      }
      assert false;
    }
    if t in fallen {
      ReadyCanBeSpared(before, p, fallen, t);
      assert false;
    }
  }

  lemma ReadyCanBeSpared(before: Db, p: Policy, s: set<TaskId>, t: TaskId)
    requires ClosedUnderFalling(before, p, s) && Ready(before, p, t)
    requires forall d | d in s :: IsBlocked(before, d)
    ensures ClosedUnderFalling(before, p, s - {t})
  {
    forall u | u in before.tasks && Falls(before, p, s - {t}, u) ensures u in s - {t} {
      assert Falls(before, p, s, u);
    }
  }

  // ---------------------------------------------------------------- the loop

  function BlockedRows(db: Db): set<TaskId> {
    set t | t in db.tasks && db.tasks[t].state == Blocked
  }

  /** Where a pass that began in `first` stands when the rows of `todo` are still to be scanned. */
  ghost predicate Scanning(before: Db, p: Policy, first: Db, db: Db, todo: set<TaskId>, changed: bool) {
    && Justified(before, p, db)
    && todo <= BlockedRows(db) <= BlockedRows(first)
    && (if changed then BlockedRows(db) < BlockedRows(first) && first.log < db.log && !AtRest(first, p)
        else db == first && forall t | t in BlockedRows(first) - todo :: Decide(first, t, p) == Wait)
    && (forall t | t in BlockedRows(first) - todo :: AllPresent(before, t))
  }

  lemma ScanOne(before: Db, p: Policy, first: Db, db: Db, todo: set<TaskId>, changed: bool, t: TaskId, now: Time)
    requires Scanning(before, p, first, db, todo, changed) && t in todo
    ensures var d := Decide(db, t, p);
            if d.Fail? then IsBlocked(before, t) && !AllPresent(before, t) && !AtRest(first, p)
            else Scanning(before, p, first, SettleStep(db, t, p, now), todo - {t}, changed || d != Wait)
  {
    StepJustified(before, p, db, t, now);
    StepRows(db, t, p, now);
    assert IsBlocked(before, t) && t in BlockedRows(first);
    assert AllPresent(before, t) <==> AllPresent(db, t);
  }

  lemma StepRows(db: Db, t: TaskId, p: Policy, now: Time)
    requires IsBlocked(db, t)
    ensures var after := SettleStep(db, t, p, now); var d := Decide(db, t, p);
            if d == Queue || d == Block then BlockedRows(after) == BlockedRows(db) - {t} && db.log < after.log
            else after == db
  {
    StepEffect(db, t, p, now);
    var (after, d) := (SettleStep(db, t, p, now), Decide(db, t, p));
    if d == Queue || d == Block {
      assert !IsBlocked(after, t);
      assert forall u :: u != t ==> (IsBlocked(after, u) <==> IsBlocked(db, u));
    }
  }

  /** Soundness carries over from one database to a later one. */
  ghost predicate KeepsSound(first: Db, db: Db) {
    StoreRuns.Sound(first) ==> StoreRuns.Sound(db)
  }

  lemma SettleKeepsSound(first: Db, db: Db, t: TaskId, p: Policy, now: Time)
    requires KeepsSound(first, db)
    ensures KeepsSound(first, SettleStep(db, t, p, now))
  {
    if StoreRuns.Sound(db) {
      SettleStepIsSound(db, t, p, now);
    }
  }

  /** The same edges, and a log whose new state changes are explained. */
  ghost predicate Continues(first: Db, db: Db) {
    db.deps == first.deps && AllExplained(first, first.log, db.log)
  }

  lemma SettleContinues(first: Db, db: Db, t: TaskId, p: Policy, now: Time)
    requires Continues(first, db) && IsBlocked(db, t)
    ensures Continues(first, SettleStep(db, t, p, now))
  {
    StepEffect(db, t, p, now);
    SettleKeepsExplained(first, db, t, p, now);
  }

  lemma ContinuesOn(first: Db, mid: Db, db: Db)
    requires Continues(first, mid) && Continues(mid, db)
    ensures Continues(first, db)
  {
    SameDepsExplain(first, mid, mid.log, db.log);
    ExplainedStays(first, first.log, mid.log, db.log);
  }

  /** One pass over the rows that were blocked when it began, in any order. */
  method Pass(db: Database, p: Policy, now: Time, ghost before: Db) returns (r: Result<bool, SettleError>)
    requires Justified(before, p, db.Now())
    modifies db
    ensures r.Ok? ==> Scanning(before, p, old(db.Now()), db.Now(), {}, r.value)
    ensures r.Err? ==> Justified(before, p, db.Now()) && !AtRest(old(db.Now()), p)
                       && IsBlocked(before, r.error.task) && !AllPresent(before, r.error.task)
    ensures KeepsSound(old(db.Now()), db.Now()) && Continues(old(db.Now()), db.Now())
  {
    ghost var first := db.Now();
    var todo := BlockedRows(db.Now());
    var changed := false;
    while todo != {}
      invariant Scanning(before, p, first, db.Now(), todo, changed)
      invariant KeepsSound(first, db.Now()) && Continues(first, db.Now())
      decreases todo
    {
      var t :| t in todo;
      SettleKeepsSound(first, db.Now(), t, p, now);
      SettleContinues(first, db.Now(), t, p, now);
      ScanOne(before, p, first, db.Now(), todo, changed, t, now);
      StepEffect(db.Now(), t, p, now);
      var moved := SettleOne(db, t, p, now);
      if moved.Err? {
        return moved;
      }
      changed := changed || moved.value;
      todo := todo - {t};
    }
    return Ok(changed);
  }

  /** Whatever order the rows were scanned in, two settled calls leave every task in the same state. */
  lemma ScanOrderDoesNotMatter(before: Db, p: Policy, one: Db, other: Db, t: TaskId)
    requires IsLeastFixpoint(before, p, one) && IsLeastFixpoint(before, p, other) && t in before.tasks
    ensures one.tasks[t].state == other.tasks[t].state
  {
    assert SameButState(before.tasks[t], one.tasks[t]) && SameButState(before.tasks[t], other.tasks[t]);
    if IsBlocked(before, t) {
      assert one.tasks[t].state == DependencyBlocked <==> other.tasks[t].state == DependencyBlocked;
    }
  }

  /** Where the loop stands between two passes; `again` says that the last one changed something. */
  ghost predicate Settling(before: Db, p: Policy, db: Db, changed: bool, again: bool) {
    && Justified(before, p, db)
    && (if changed then before.log < db.log && !AtRest(before, p) else db == before)
    && (!again ==> AtRest(db, p))
    && (changed || !again ==> forall t | t in BlockedRows(before) :: AllPresent(before, t))
  }

  lemma PassSettles(before: Db, p: Policy, first: Db, db: Db, changed: bool, passed: bool)
    requires Settling(before, p, first, changed, true) && Scanning(before, p, first, db, {}, passed)
    ensures Settling(before, p, db, changed || passed, passed)
  {
  }

  /** advance_dependency_states: passes until one changes nothing. */
  method AdvanceDependencyStates(db: Database, p: Policy, now: Time) returns (r: Result<bool, SettleError>)
    modifies db
    ensures r.Ok? ==> IsLeastFixpoint(old(db.Now()), p, db.Now()) && AtRest(db.Now(), p)
    ensures r == Ok(false) ==> db.Now() == old(db.Now())
    ensures r == Ok(true) ==> old(db.log) < db.log
    ensures r.Err? <==> exists t | t in old(db.tasks) && IsBlocked(old(db.Now()), t) :: !AllPresent(old(db.Now()), t)
    ensures r.Err? ==> Justified(old(db.Now()), p, db.Now())
    ensures AtRest(old(db.Now()), p) ==> r == Ok(false)
    ensures KeepsSound(old(db.Now()), db.Now())
    ensures r.Ok? ==> forall t | IsBlocked(old(db.Now()), t) ::
              t in db.tasks && (db.tasks[t].state == DependencyBlocked <==> LeadsToDeadEnd(old(db.Now()), p, t))
    ensures AllExplained(old(db.Now()), old(db.log), db.log)
  {
    ghost var before := db.Now();
    var changed := false;
    var again := true;
    while again
      invariant Settling(before, p, db.Now(), changed, again) && KeepsSound(before, db.Now())
      invariant Continues(before, db.Now())
      decreases BlockedRows(db.Now()), again
    {
      ghost var first := db.Now();
      var passed := Pass(db, p, now, before);
      ContinuesOn(before, first, db.Now());
      if passed.Err? {
        return Err(passed.error);
      }
      PassSettles(before, p, first, db.Now(), changed, passed.value);
      changed := changed || passed.value;
      again := passed.value;
    }
    RestIsLeastFixpoint(before, p, db.Now());
    forall t | IsBlocked(before, t)
      ensures t in db.tasks && (db.tasks[t].state == DependencyBlocked <==> LeadsToDeadEnd(before, p, t))
    {
      DoomedIff(before, p, t);
    }
    return Ok(changed);
  }

  // ---------------------------------------------------------------- the run cannot get stuck

  predicate TeamSettled(db: Db) {
    forall t | t in db.tasks :: db.tasks[t].state in SETTLED
  }

  function DependencyGraphOf(db: Db): Graph {
    map t | t in db.tasks :: Elements(DepsOf(db, t))
  }

  /** No task that a worker, the verifier, the supervisor or a delivery still has to move. */
  predicate NothingInFlight(db: Db) {
    forall t | t in db.tasks :: db.tasks[t].state in SETTLED || db.tasks[t].state == Blocked
  }

  /** A task left waiting waits for a task that is itself blocked, or for a person. */
  lemma WaiterWaitsForSomebody(db: Db, p: Policy, t: TaskId)
    requires AtRest(db, p) && NothingInFlight(db) && IsBlocked(db, t)
    ensures exists d | d in DepsOf(db, t) ::
              d in db.tasks && (IsBlocked(db, d) || (!p.blockNeedsHuman && db.tasks[d].state == NeedsHuman))
  {
    assert Decide(db, t, p) == Wait;
    assert !AllDelivered(db, t) && !SomeBlocking(db, t, p) && AllPresent(db, t);
  }

  /** In a finite run on an acyclic graph, once nothing is in flight and settlement is at rest, all is settled. */
  lemma NoDeadlock(db: Db, p: Policy)
    requires Acyclic(DependencyGraphOf(db)) && p.blockNeedsHuman
    requires AtRest(db, p) && NothingInFlight(db)
    ensures TeamSettled(db)
  {
    forall t | t in db.tasks ensures db.tasks[t].state in SETTLED {
      NotLeftBlocked(db, p, t);
    }
  }

  lemma NotLeftBlocked(db: Db, p: Policy, t: TaskId)
    requires Acyclic(DependencyGraphOf(db)) && p.blockNeedsHuman
    requires AtRest(db, p) && NothingInFlight(db)
    ensures !IsBlocked(db, t)
  {
    var g, stuck := DependencyGraphOf(db), BlockedRows(db);
    if IsBlocked(db, t) {
      forall u | u in stuck ensures g[u] * stuck != {} {
        WaiterWaitsForSomebody(db, p, u);
        var d :| d in DepsOf(db, u) && IsBlocked(db, d);
        assert d in g[u] * stuck;
      }
      StuckTasksLeadToCycles(g, stuck, t);
    }
  }

  /** `t` waits, through blocked tasks only, for a task that waits for a person. */
  ghost predicate WaitsForPerson(db: Db, t: TaskId) {
    exists w :: PersonWalk(db, w) && w[0] == t
  }

  ghost predicate PersonWalk(db: Db, w: seq<TaskId>) {
    && |w| > 1 && Walk(DependencyGraphOf(db), w)
    && (forall i | 0 <= i < |w| - 1 :: IsBlocked(db, w[i]))
    && db.tasks[w[|w| - 1]].state == NeedsHuman
  }

  /** In daemon mode, where a person may still answer, every task left blocked waits for a person. */
  lemma DaemonWaitsOnlyForPeople(db: Db, p: Policy, t: TaskId)
    requires Acyclic(DependencyGraphOf(db)) && !p.blockNeedsHuman
    requires AtRest(db, p) && NothingInFlight(db) && IsBlocked(db, t)
    ensures WaitsForPerson(db, t)
  {
    var g := DependencyGraphOf(db);
    var stuck := set u | u in db.tasks && IsBlocked(db, u) && !WaitsForPerson(db, u);
    if t in stuck {
      forall u | u in stuck ensures g[u] * stuck != {} {
        var d := NextWaiter(db, p, u);
        assert d in g[u] * stuck;
      }
      StuckTasksLeadToCycles(g, stuck, t);
    }
  }

  lemma NextWaiter(db: Db, p: Policy, u: TaskId) returns (d: TaskId)
    requires AtRest(db, p) && NothingInFlight(db) && !p.blockNeedsHuman
    requires IsBlocked(db, u) && !WaitsForPerson(db, u)
    ensures d in DepsOf(db, u) && IsBlocked(db, d) && !WaitsForPerson(db, d)
  {
    WaiterWaitsForSomebody(db, p, u);
    d :| d in DepsOf(db, u) && d in db.tasks && (IsBlocked(db, d) || db.tasks[d].state == NeedsHuman);
    if db.tasks[d].state == NeedsHuman || WaitsForPerson(db, d) {
      PersonAhead(db, u, d);
    }
  }

  lemma PersonAhead(db: Db, u: TaskId, d: TaskId)
    requires IsBlocked(db, u) && d in DepsOf(db, u) && d in db.tasks
    requires db.tasks[d].state == NeedsHuman || (IsBlocked(db, d) && WaitsForPerson(db, d))
    ensures WaitsForPerson(db, u)
  {
    if db.tasks[d].state == NeedsHuman {
      assert PersonWalk(db, [u, d]) && [u, d][0] == u;
    } else {
      var w :| PersonWalk(db, w) && w[0] == d;
      assert PersonWalk(db, [u] + w) && ([u] + w)[0] == u;
    }
  }
}
