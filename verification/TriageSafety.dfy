/**
 What every run of the triage machine keeps: one recovery per cause, the retry, nudge and
 launch caps, and what becomes of a child attempt that a crash left behind.
 */
module TriageSafety {
  import opened Wrappers
  import opened States
  import opened Triage
  import Recovery
  import Supervisor

  // ---------------------------------------------------------------- counting

  /** supervisor.acted and recovery.attempted events of one cause. */
  function Recoveries(log: Log, c: Seq): nat {
    if log == [] then 0
    else Recoveries(log[..|log| - 1], c) + if IsRecovery(log[|log| - 1], c) then 1 else 0
  }

  /** supervisor.acted events of one cause. */
  function Decisions(log: Log, c: Seq): nat {
    if log == [] then 0
    else Decisions(log[..|log| - 1], c)
         + if log[|log| - 1].Acted? && log[|log| - 1].actedFor == c then 1 else 0
  }

  function Answers(log: Log): nat {
    if log == [] then 0 else Answers(log[..|log| - 1]) + if log[|log| - 1].Answered? then 1 else 0
  }

  /** A transition into running caused by worker.spawned. */
  predicate IsLaunch(log: Log, e: Event) {
    e.Changed? && e.to == Running && e.cause < |log| && log[e.cause].Spawned?
  }

  function Launches(log: Log): nat {
    if log == [] then 0
    else Launches(log[..|log| - 1]) + if IsLaunch(log[..|log| - 1], log[|log| - 1]) then 1 else 0
  }

  lemma Append(log: Log, e: Event)
    ensures forall c :: Recoveries(log + [e], c) == Recoveries(log, c) + if IsRecovery(e, c) then 1 else 0
    ensures forall c :: Decisions(log + [e], c) == Decisions(log, c) + if e.Acted? && e.actedFor == c then 1 else 0
    ensures NudgesUsed(log + [e]) == NudgesUsed(log) + if e.Acted? && e.action == Supervisor.Nudge then 1 else 0
    ensures ProtocolRepairs(log + [e]) == ProtocolRepairs(log) + if e.PolicyApplied? && e.protocolRepair then 1 else 0
    ensures Answers(log + [e]) == Answers(log) + if e.Answered? then 1 else 0
    ensures Launches(log + [e]) == Launches(log) + if IsLaunch(log, e) then 1 else 0
    ensures LastCause(log + [e]) == if e.Changed? then Some(e.cause) else LastCause(log)
  {
    assert (log + [e])[..|log|] == log;
  }

  lemma {:induction false} HandledMeans(log: Log, c: Seq)
    ensures Handled(log, c).Some? <==> Recoveries(log, c) > 0
    ensures Handled(log, c).Some? ==> IsRecovery(Handled(log, c).value, c)
    ensures Handled(log, c).Some? && Handled(log, c).value.Acted? ==> Decisions(log, c) > 0
    ensures Persisted(log, c).Some? <==> Decisions(log, c) > 0
    ensures Decisions(log, c) <= Recoveries(log, c)
  {
    if log != [] {
      HandledMeans(log[..|log| - 1], c);
    }
  }

  // ---------------------------------------------------------------- the shape of reachable states

  function CauseOf(pc: Pc): Option<Seq> {
    match pc
    case Idle | Interrupted(_, _) | Marking(_) | Escalating(_) => None
    case _ => Some(pc.cause)
  }

  predicate IsSignal(log: Log, c: Seq) {
    c < |log| && log[c].Signal?
  }

  predicate Launching(pc: Pc) {
    pc.Launching? || pc.Linking? || pc.Launched? || pc.Spawning? || pc.Starting?
  }

  /** What the handler that holds the lock has already established. */
  predicate PcShape(s: System) {
    var d := s.durable;
    && (s.pc != Idle && !s.pc.Recording? ==> d.state in {State.Triage, Cancelled})
    && (s.pc.Recording? ==> d.state in {Running, Verifying, Delivering, Delivered, Cancelled})
    && (s.pc != Idle ==> d.attempts != [])
    && (CauseOf(s.pc).Some? ==> IsSignal(d.log, CauseOf(s.pc).value))
    && (s.pc.Decided? || s.pc.Closing? || s.pc.Dispatching? ==> s.pc.acted < |d.log| && d.log[s.pc.acted].Acted?)
    && (Launching(s.pc) ==> s.pc.retries == d.retries + 1)
    && (d.attempts == [] ==> d.state in {Blocked, Queued, Cancelled, DependencyBlocked})
  }

  /** Signals presuppose an attempt, and every recovery names a signal. */
  ghost predicate LogShape(d: Durable) {
    && (forall c :: IsSignal(d.log, c) ==> d.attempts != [])
    && (forall c :: Recoveries(d.log, c) > 0 ==> IsSignal(d.log, c))
  }

  ghost predicate Shape(s: System) {
    PcShape(s) && LogShape(s.durable)
  }

  lemma LogShapeAppend(d: Durable, after: Durable, e: Event)
    requires LogShape(d) && after.log == d.log + [e]
    requires d.attempts != [] ==> after.attempts != []
    requires e.Signal? ==> after.attempts != []
    requires e.Acted? ==> IsSignal(d.log, e.actedFor)
    requires e.Attempted? ==> IsSignal(d.log, e.attemptedFor)
    ensures LogShape(after)
  {
    Append(d.log, e);
    assert forall c :: IsSignal(d.log, c) ==> IsSignal(after.log, c);
    forall c: Seq | IsSignal(after.log, c) ensures after.attempts != [] {
      assert c == |d.log| || IsSignal(d.log, c);
    }
  }

  lemma EnterPcShape(cfg: Config, s: System, o: Oracle)
    requires PcShape(s) && s.pc.Entered?
    ensures PcShape(Advance(cfg, s, o))
  {
  }

  lemma EnterShape(cfg: Config, s: System, o: Oracle)
    requires Shape(s) && s.pc.Entered?
    ensures Shape(Advance(cfg, s, o))
  {
    EnterPcShape(cfg, s, o);
    var d, after := s.durable, Advance(cfg, s, o).durable;
    if |after.log| > |d.log| {
      LogShapeAppend(d, after, after.log[|d.log|]);
    }
  }

  lemma DecideShape(cfg: Config, s: System, o: Oracle)
    requires Shape(s)
    requires s.pc.Reserved? || s.pc.Invoking? || s.pc.Asking? || s.pc.Decided? || s.pc.Closing? || s.pc.Dispatching?
    ensures Shape(Advance(cfg, s, o))
  {
    var d, after := s.durable, Advance(cfg, s, o).durable;
    if |after.log| > |d.log| {
      LogShapeAppend(d, after, after.log[|d.log|]);
    }
  }

  lemma LaunchPcShape(cfg: Config, s: System, o: Oracle)
    requires PcShape(s)
    requires Launching(s.pc) || s.pc.Retrying? || s.pc.Recording?
    ensures PcShape(Advance(cfg, s, o))
  {
  }

  lemma LaunchShape(cfg: Config, s: System, o: Oracle)
    requires Shape(s)
    requires Launching(s.pc) || s.pc.Retrying? || s.pc.Recording?
    ensures Shape(Advance(cfg, s, o))
  {
    LaunchPcShape(cfg, s, o);
    var d, after := s.durable, Advance(cfg, s, o).durable;
    if |after.log| > |d.log| {
      LogShapeAppend(d, after, after.log[|d.log|]);
    }
  }

  lemma EscalateShape(cfg: Config, s: System, o: Oracle)
    requires Shape(s)
    requires s.pc.Interrupted? || s.pc.Marking? || s.pc.Escalating?
    ensures Shape(Advance(cfg, s, o))
  {
    var d, after := s.durable, Advance(cfg, s, o).durable;
    if |after.log| > |d.log| {
      LogShapeAppend(d, after, after.log[|d.log|]);
    }
  }

  lemma DeliverPcShape(s: System, c: Seq, live: bool)
    requires PcShape(s) && (IsSignal(s.durable.log, c) ==> s.durable.attempts != [])
    ensures PcShape(Deliver(s, c, live))
  {
  }

  /** A delivery leaves the tables alone but for the move to triage. */
  lemma DeliverMoves(s: System, c: Seq, live: bool)
    ensures var d, after := s.durable, Deliver(s, c, live).durable;
      after == d || after == Move(d, State.Triage, c)
  {
  }

  lemma DeliverShape(s: System, c: Seq, live: bool)
    requires Shape(s)
    ensures Shape(Deliver(s, c, live))
  {
    var d := s.durable;
    DeliverPcShape(s, c, live);
    DeliverMoves(s, c, live);
    LogShapeAppend(d, Move(d, State.Triage, c), Changed(d.state, State.Triage, c));
  }

  // ---------------------------------------------------------------- steps outside the handler

  predicate Environment(step: Step) {
    !step.Handle? && !step.Continue? && !step.Crash? && !step.Abort?
  }

  predicate Noise(e: Event) {
    !e.Acted? && !e.Attempted? && !e.PolicyApplied? && !e.Invoked?
  }

  /** At most two events, none of them a call, a decision, a recovery or a policy. */
  predicate Quiet(before: Log, after: Log) {
    before <= after && |after| <= |before| + 2 && forall i | |before| <= i < |after| :: Noise(after[i])
  }

  lemma QuietForms(before: Log, after: Log)
    requires Quiet(before, after)
    ensures |after| == |before| ==> after == before
    ensures |after| == |before| + 1 ==> after == before + [after[|before|]]
    ensures |after| == |before| + 2 ==> after == before + [after[|before|]] + [after[|before| + 1]]
  {
  }

  lemma QuietKeeps(before: Log, after: Log)
    requires Quiet(before, after)
    ensures forall c :: Recoveries(after, c) == Recoveries(before, c)
    ensures forall c :: Decisions(after, c) == Decisions(before, c)
    ensures NudgesUsed(after) == NudgesUsed(before) && ProtocolRepairs(after) == ProtocolRepairs(before)
  {
    QuietForms(before, after);
    if |after| > |before| {
      Append(before, after[|before|]);
      if |after| > |before| + 1 {
        Append(before + [after[|before|]], after[|before| + 1]);
      }
    }
  }

  lemma ReportWrites(cfg: Config, s: System, step: Step)
    requires step.Report? || step.Reconcile? || step.Resume?
    ensures Quiet(s.durable.log, Next(cfg, s, step).durable.log)
  {
  }

  lemma EnvironmentWrites(cfg: Config, s: System, step: Step)
    requires Environment(step)
    ensures Quiet(s.durable.log, Next(cfg, s, step).durable.log)
  {
    if step.Report? || step.Reconcile? || step.Resume? {
      ReportWrites(cfg, s, step);
    }
  }

  lemma EnvironmentSpares(cfg: Config, s: System, step: Step)
    requires Environment(step)
    ensures Next(cfg, s, step).pc == s.pc
    ensures Next(cfg, s, step).durable.retries == s.durable.retries
    ensures Next(cfg, s, step).durable.interventions == s.durable.interventions
    ensures |Next(cfg, s, step).durable.attempts| >= |s.durable.attempts|
    ensures s.durable.state in {State.Triage, Cancelled} ==>
      Next(cfg, s, step).durable.attempts == s.durable.attempts
      && Next(cfg, s, step).durable.state in {s.durable.state, Cancelled}
  {
  }

  /** Outside the handler: the log only gains noise, and the lock, the budget and a task in triage are left alone. */
  lemma EnvironmentIsQuiet(cfg: Config, s: System, step: Step)
    requires Environment(step)
    ensures Quiet(s.durable.log, Next(cfg, s, step).durable.log)
    ensures Next(cfg, s, step).pc == s.pc
    ensures Next(cfg, s, step).durable.retries == s.durable.retries
    ensures Next(cfg, s, step).durable.interventions == s.durable.interventions
    ensures |Next(cfg, s, step).durable.attempts| >= |s.durable.attempts|
    ensures s.durable.state in {State.Triage, Cancelled} ==>
      Next(cfg, s, step).durable.attempts == s.durable.attempts
      && Next(cfg, s, step).durable.state in {s.durable.state, Cancelled}
  {
    EnvironmentWrites(cfg, s, step);
    EnvironmentSpares(cfg, s, step);
  }

  lemma EnvironmentSignals(cfg: Config, s: System, step: Step)
    requires PcShape(s) && Environment(step)
    ensures step.Report? || step.Reconcile? ==>
      s.durable.attempts != [] || Next(cfg, s, step).durable == s.durable
    ensures !step.Report? && !step.Reconcile? ==>
      forall i | |s.durable.log| <= i < |Next(cfg, s, step).durable.log| ::
        !Next(cfg, s, step).durable.log[i].Signal?
  {
  }

  lemma EnvironmentLogShape(cfg: Config, s: System, step: Step)
    requires Shape(s) && Environment(step)
    ensures LogShape(Next(cfg, s, step).durable)
  {
    EnvironmentIsQuiet(cfg, s, step);
    EnvironmentSignals(cfg, s, step);
    var d, after := s.durable, Next(cfg, s, step).durable;
    QuietKeeps(d.log, after.log);
    forall c: Seq | IsSignal(after.log, c) ensures after.attempts != [] {
      assert c < |d.log| ==> IsSignal(d.log, c);
    }
    forall c: Seq | Recoveries(after.log, c) > 0 ensures IsSignal(after.log, c) {
      assert IsSignal(d.log, c);
    }
  }

  lemma EnvironmentPcShape(cfg: Config, s: System, step: Step)
    requires PcShape(s) && Environment(step)
    ensures PcShape(Next(cfg, s, step))
  {
    EnvironmentIsQuiet(cfg, s, step);
  }

  lemma EnvironmentShape(cfg: Config, s: System, step: Step)
    requires Shape(s) && Environment(step)
    ensures Shape(Next(cfg, s, step))
  {
    EnvironmentLogShape(cfg, s, step);
    EnvironmentPcShape(cfg, s, step);
  }

  lemma AdvanceShape(cfg: Config, s: System, o: Oracle)
    requires Shape(s)
    ensures Shape(Advance(cfg, s, o))
  {
    if s.pc.Entered? {
      EnterShape(cfg, s, o);
    } else if Launching(s.pc) || s.pc.Retrying? || s.pc.Recording? {
      LaunchShape(cfg, s, o);
    } else if s.pc.Interrupted? || s.pc.Marking? || s.pc.Escalating? {
      EscalateShape(cfg, s, o);
    } else if s.pc != Idle {
      DecideShape(cfg, s, o);
    }
  }

  lemma NextShape(cfg: Config, s: System, step: Step)
    requires Shape(s)
    ensures Shape(Next(cfg, s, step))
  {
    match step
    case Handle(c, live) => DeliverShape(s, c, live);
    case Continue(o) => AdvanceShape(cfg, s, o);
    case Crash =>
    case Abort =>
    case _ => EnvironmentShape(cfg, s, step);
  }

  // ---------------------------------------------------------------- refusals are stable

  /** Time has passed: the log and the budget used only grew. */
  predicate Later(d: Durable, after: Durable) {
    && d.log <= after.log && d.retries <= after.retries
    && ProtocolRepairs(d.log) <= ProtocolRepairs(after.log)
    && d.attempts != []
  }

  predicate Refused(cfg: Config, d: Durable, c: Seq) {
    !ProtocolAccepts(cfg, d, c) && !PublicAccepts(cfg, d, c)
  }

  lemma RefusedStays(cfg: Config, d: Durable, after: Durable, c: Seq)
    requires Later(d, after) && IsSignal(d.log, c) && Refused(cfg, d, c)
    ensures Refused(cfg, after, c)
  {
    var class_ := Recovery.ClassifyFailure(d.log[c].trigger, d.log[c].evidence);
    Recovery.RefusalIsStable(class_, d.retries, after.retries, cfg.maxRetries, 0, 0, false);
    Recovery.RefusalIsStable(Recovery.ProtocolIncomplete, d.retries, after.retries, cfg.maxRetries,
                             ProtocolRepairs(d.log), ProtocolRepairs(after.log), false);
  }

  // ---------------------------------------------------------------- one recovery per cause

  predicate Fresh(pc: Pc) {
    || pc.Retrying? || pc.Reserved? || pc.Invoking? || pc.Asking? || pc.Recording?
    || (Launching(pc) && pc.how == Deterministic)
  }

  /** The handler spends a recovery only on a cause that has none. */
  predicate PcOnce(cfg: Config, s: System) {
    var d := s.durable;
    && (Fresh(s.pc) ==> Recoveries(d.log, s.pc.cause) == 0)
    && (s.pc.Entered? && Recoveries(d.log, s.pc.cause) > 0 ==>
        Decisions(d.log, s.pc.cause) > 0 && !CrashAccepts(cfg, d, s.pc.cause))
    && (s.pc.Reserved? || s.pc.Invoking? || s.pc.Asking? ==> Refused(cfg, d, s.pc.cause))
  }

  ghost predicate LogOnce(cfg: Config, d: Durable) {
    && (forall c :: Recoveries(d.log, c) <= 1)
    && (forall c :: Decisions(d.log, c) > 0 ==> Refused(cfg, d, c))
  }

  ghost predicate Once(cfg: Config, s: System) {
    PcOnce(cfg, s) && LogOnce(cfg, s.durable)
  }

  /**
   The delivery the guard of _handle_triage lets through although the cause was decided already:
   the task is in triage, and the deterministic crash path would now go ahead.
   */
  predicate Sharp(cfg: Config, s: System, step: Step) {
    && step.Handle? && s.pc == Idle && s.durable.state == State.Triage
    && Decisions(s.durable.log, step.cause) > 0 && CrashAccepts(cfg, s.durable, step.cause)
  }

  /** A write that records no recovery keeps LogOnce. */
  lemma LogOnceStays(cfg: Config, d: Durable, after: Durable)
    requires LogOnce(cfg, d) && LogShape(d)
    requires d.log <= after.log && d.retries <= after.retries
    requires ProtocolRepairs(d.log) <= ProtocolRepairs(after.log)
    requires forall c :: Recoveries(after.log, c) == Recoveries(d.log, c)
    requires forall c :: Decisions(after.log, c) == Decisions(d.log, c)
    ensures LogOnce(cfg, after)
  {
    forall c | Decisions(after.log, c) > 0 ensures Refused(cfg, after, c) {
      HandledMeans(d.log, c);
      assert IsSignal(d.log, c);
      RefusedStays(cfg, d, after, c);
    }
  }

  /** One event that is neither a decision nor a recovery. */
  lemma LogOnceAppend(cfg: Config, d: Durable, after: Durable, e: Event)
    requires LogOnce(cfg, d) && LogShape(d)
    requires after.log == d.log + [e] && !e.Acted? && !e.Attempted? && d.retries <= after.retries
    ensures LogOnce(cfg, after)
    ensures forall c :: Recoveries(after.log, c) == Recoveries(d.log, c)
    ensures forall c :: Decisions(after.log, c) == Decisions(d.log, c)
    ensures ProtocolRepairs(d.log) <= ProtocolRepairs(after.log)
  {
    Append(d.log, e);
    LogOnceStays(cfg, d, after);
  }

  lemma EnterLogOnce(cfg: Config, s: System, o: Oracle)
    requires Shape(s) && Once(cfg, s) && s.pc.Entered?
    ensures LogOnce(cfg, Advance(cfg, s, o).durable)
    ensures forall c :: Recoveries(Advance(cfg, s, o).durable.log, c) == Recoveries(s.durable.log, c)
  {
    var d, after := s.durable, Advance(cfg, s, o).durable;
    if |after.log| > |d.log| {
      LogOnceAppend(cfg, d, after, after.log[|d.log|]);
    } else {
      assert after.log == d.log;
      LogOnceStays(cfg, d, after);
    }
  }

  lemma EnterPcOnce(cfg: Config, s: System, o: Oracle)
    requires Shape(s) && Once(cfg, s) && s.pc.Entered?
    requires forall c :: Recoveries(Advance(cfg, s, o).durable.log, c) == Recoveries(s.durable.log, c)
    ensures PcOnce(cfg, Advance(cfg, s, o))
  {
    HandledMeans(s.durable.log, s.pc.cause);
  }

  lemma AskingOnce(cfg: Config, s: System, o: Oracle)
    requires Shape(s) && Once(cfg, s) && s.pc.Asking?
    ensures Once(cfg, Advance(cfg, s, o))
  {
    var d, after := s.durable, Advance(cfg, s, o).durable;
    var e := after.log[|d.log|];
    assert after.log == d.log + [e] && e.Acted? && e.actedFor == s.pc.cause;
    Append(d.log, e);
    forall c | Decisions(after.log, c) > 0 ensures Refused(cfg, after, c) {
      HandledMeans(d.log, c);
      assert IsSignal(d.log, c);
      RefusedStays(cfg, d, after, c);
    }
  }

  lemma RecordingOnce(cfg: Config, s: System, o: Oracle)
    requires Shape(s) && Once(cfg, s) && s.pc.Recording?
    ensures Once(cfg, Advance(cfg, s, o))
  {
    var d, after := s.durable, Advance(cfg, s, o).durable;
    var e := Attempted(s.pc.cause);
    Append(d.log, e);
    forall c | Decisions(after.log, c) > 0 ensures Refused(cfg, after, c) {
      HandledMeans(d.log, c);
      assert IsSignal(d.log, c);
      RefusedStays(cfg, d, after, c);
    }
  }

  /** Every other write of the handler. */
  lemma OtherLogOnce(cfg: Config, s: System, o: Oracle)
    requires Shape(s) && Once(cfg, s) && !s.pc.Entered? && !s.pc.Asking? && !s.pc.Recording?
    ensures LogOnce(cfg, Advance(cfg, s, o).durable)
    ensures forall c :: Recoveries(Advance(cfg, s, o).durable.log, c) == Recoveries(s.durable.log, c)
    ensures ProtocolRepairs(s.durable.log) <= ProtocolRepairs(Advance(cfg, s, o).durable.log)
  {
    var d, after := s.durable, Advance(cfg, s, o).durable;
    if |after.log| > |d.log| {
      LogOnceAppend(cfg, d, after, after.log[|d.log|]);
    } else {
      assert after.log == d.log;
      LogOnceStays(cfg, d, after);
    }
  }

  /** Where the handler stands after such a write. */
  lemma OtherPc(cfg: Config, s: System, o: Oracle)
    requires PcShape(s) && !s.pc.Entered? && !s.pc.Asking? && !s.pc.Recording?
    ensures var next := Advance(cfg, s, o);
      && !next.pc.Entered?
      && (Fresh(next.pc) ==> Fresh(s.pc) && next.pc.cause == s.pc.cause)
      && (next.pc.Reserved? || next.pc.Invoking? || next.pc.Asking? ==>
          (s.pc.Reserved? || s.pc.Invoking?) && next.pc.cause == s.pc.cause
          && Later(s.durable, next.durable.(log := s.durable.log)) && s.durable.log <= next.durable.log)
  {
  }

  lemma OtherPcOnce(cfg: Config, s: System, o: Oracle)
    requires Shape(s) && Once(cfg, s) && !s.pc.Entered? && !s.pc.Asking? && !s.pc.Recording?
    requires forall c :: Recoveries(Advance(cfg, s, o).durable.log, c) == Recoveries(s.durable.log, c)
    requires ProtocolRepairs(s.durable.log) <= ProtocolRepairs(Advance(cfg, s, o).durable.log)
    ensures PcOnce(cfg, Advance(cfg, s, o))
  {
    OtherPc(cfg, s, o);
    var next := Advance(cfg, s, o);
    if next.pc.Reserved? || next.pc.Invoking? || next.pc.Asking? {
      RefusedStays(cfg, s.durable, next.durable, s.pc.cause);
    }
  }

  lemma EnvironmentLogOnce(cfg: Config, s: System, step: Step)
    requires Shape(s) && Once(cfg, s) && Environment(step)
    ensures LogOnce(cfg, Next(cfg, s, step).durable)
  {
    EnvironmentIsQuiet(cfg, s, step);
    var d, after := s.durable, Next(cfg, s, step).durable;
    QuietKeeps(d.log, after.log);
    LogOnceStays(cfg, d, after);
  }

  lemma CrashRefusalStays(cfg: Config, d: Durable, after: Durable, c: Seq)
    requires d.log <= after.log && after.attempts == d.attempts && after.retries >= d.retries
    requires IsSignal(d.log, c) && !CrashAccepts(cfg, d, c)
    ensures !CrashAccepts(cfg, after, c)
  {
  }

  /** A later state with the same handler, the same attempts and no new recovery. */
  lemma PcOnceStays(cfg: Config, s: System, next: System)
    requires Shape(s) && PcOnce(cfg, s) && next.pc == s.pc
    requires s.pc.Entered? ==> next.durable.attempts == s.durable.attempts
    requires s.durable.log <= next.durable.log && s.durable.retries <= next.durable.retries
    requires ProtocolRepairs(s.durable.log) <= ProtocolRepairs(next.durable.log)
    requires forall c :: Recoveries(next.durable.log, c) == Recoveries(s.durable.log, c)
    requires forall c :: Decisions(next.durable.log, c) == Decisions(s.durable.log, c)
    ensures PcOnce(cfg, next)
  {
    if s.pc.Reserved? || s.pc.Invoking? || s.pc.Asking? {
      RefusedStays(cfg, s.durable, next.durable, s.pc.cause);
    } else if s.pc.Entered? && !CrashAccepts(cfg, s.durable, s.pc.cause) {
      CrashRefusalStays(cfg, s.durable, next.durable, s.pc.cause);
    }
  }

  lemma EnvironmentPcOnce(cfg: Config, s: System, step: Step)
    requires Shape(s) && Once(cfg, s) && Environment(step)
    ensures PcOnce(cfg, Next(cfg, s, step))
  {
    EnvironmentIsQuiet(cfg, s, step);
    var next := Next(cfg, s, step);
    QuietKeeps(s.durable.log, next.durable.log);
    PcOnceStays(cfg, s, next);
  }

  lemma DeliverOnce(cfg: Config, s: System, c: Seq, live: bool)
    requires Shape(s) && Once(cfg, s) && !Sharp(cfg, s, Handle(c, live))
    ensures Once(cfg, Deliver(s, c, live))
  {
    var d, after := s.durable, Deliver(s, c, live).durable;
    HandledMeans(d.log, c);
    if |after.log| > |d.log| {
      LogOnceAppend(cfg, d, after, after.log[|d.log|]);
    }
  }

  lemma NextOnce(cfg: Config, s: System, step: Step)
    requires Shape(s) && Once(cfg, s) && !Sharp(cfg, s, step)
    ensures Once(cfg, Next(cfg, s, step))
  {
    match step
    case Handle(c, live) => DeliverOnce(cfg, s, c, live);
    case Continue(o) =>
      if s.pc.Entered? {
        EnterLogOnce(cfg, s, o);
        EnterPcOnce(cfg, s, o);
      } else if s.pc.Asking? {
        AskingOnce(cfg, s, o);
      } else if s.pc.Recording? {
        RecordingOnce(cfg, s, o);
      } else {
        OtherLogOnce(cfg, s, o);
        OtherPcOnce(cfg, s, o);
      }
    case Crash =>
    case Abort =>
    case _ =>
      EnvironmentLogOnce(cfg, s, step);
      EnvironmentPcOnce(cfg, s, step);
  }

  // ---------------------------------------------------------------- runs

  lemma {:induction false} RunsHaveShape(cfg: Config, steps: seq<Step>)
    ensures Shape(Run(cfg, steps))
  {
    if steps != [] {
      RunsHaveShape(cfg, steps[..|steps| - 1]);
      NextShape(cfg, Run(cfg, steps[..|steps| - 1]), steps[|steps| - 1]);
    }
  }

  /** No delivery of the run is sharp. */
  predicate Spared(cfg: Config, steps: seq<Step>) {
    steps == [] ||
    (Spared(cfg, steps[..|steps| - 1])
     && !Sharp(cfg, Run(cfg, steps[..|steps| - 1]), steps[|steps| - 1]))
  }

  lemma {:induction false} RunsAreOnce(cfg: Config, steps: seq<Step>)
    requires Spared(cfg, steps)
    ensures Once(cfg, Run(cfg, steps))
  {
    if steps != [] {
      RunsAreOnce(cfg, steps[..|steps| - 1]);
      RunsHaveShape(cfg, steps[..|steps| - 1]);
      NextOnce(cfg, Run(cfg, steps[..|steps| - 1]), steps[|steps| - 1]);
    }
  }

  // ---------------------------------------------------------------- deliveries in order

  /**
   Every delivery that finds the task already in triage carries the cause that put it there, as
   at a restart, or a cause no decision has been recorded for, as a new signal does that waited
   for the lock while an earlier handler failed.
   */
  predicate Orderly(cfg: Config, steps: seq<Step>) {
    steps == [] ||
    (Orderly(cfg, steps[..|steps| - 1])
     && var s := Run(cfg, steps[..|steps| - 1]);
        var step := steps[|steps| - 1];
        step.Handle? && s.durable.state == State.Triage ==>
          LastCause(s.durable.log) == Some(step.cause) || Decisions(s.durable.log, step.cause) == 0)
  }

  /** The cause that put the task in triage, once decided, is past the deterministic crash path. */
  predicate Decisive(cfg: Config, s: System) {
    var d := s.durable;
    && (d.state == State.Triage && LastCause(d.log).Some? && Decisions(d.log, LastCause(d.log).value) > 0
        ==> !CrashAccepts(cfg, d, LastCause(d.log).value))
    && (s.pc.Reserved? || s.pc.Invoking? || s.pc.Asking? ==> !CrashAccepts(cfg, d, s.pc.cause))
  }

  /** Within triage the crash path, once closed, stays closed. */
  lemma CrashStaysRefused(cfg: Config, d: Durable, after: Durable, c: Seq)
    requires d.log <= after.log && d.retries <= after.retries
    requires after.attempts != [] && Latest(after).failure == WorkerExit ==>
      d.attempts != [] && Latest(d).failure == WorkerExit
    requires IsSignal(d.log, c) && !CrashAccepts(cfg, d, c)
    ensures !CrashAccepts(cfg, after, c)
  {
  }

  lemma HandlerKeepsFailures(cfg: Config, s: System, o: Oracle)
    requires PcShape(s) && s.pc != Idle
    ensures var d, after := s.durable, Advance(cfg, s, o).durable;
      && after.attempts != []
      && (Latest(after).failure == WorkerExit ==> Latest(d).failure == WorkerExit)
      && d.retries <= after.retries && d.log <= after.log
  {
  }

  lemma HandlerWrites(cfg: Config, s: System, o: Oracle)
    requires PcShape(s)
    ensures var d, after := s.durable, Advance(cfg, s, o).durable;
      && (after.log == d.log || (|after.log| == |d.log| + 1 && after.log == d.log + [after.log[|d.log|]]))
      && (after.state == State.Triage ==> d.state == State.Triage)
      && (after.state == State.Triage ==> |after.log| == |d.log| || !after.log[|d.log|].Changed?)
      && (|after.log| > |d.log| && after.log[|d.log|].Acted? ==>
          s.pc.Asking? && after.log[|d.log|].actedFor == s.pc.cause)
  {
  }

  lemma AdvanceDecisive(cfg: Config, s: System, o: Oracle)
    requires Shape(s) && Decisive(cfg, s) && s.pc != Idle
    ensures Decisive(cfg, Advance(cfg, s, o))
  {
    var d, next := s.durable, Advance(cfg, s, o);
    var after := next.durable;
    HandlerKeepsFailures(cfg, s, o);
    HandlerWrites(cfg, s, o);
    if next.pc.Reserved? || next.pc.Invoking? || next.pc.Asking? {
      HandlerOpens(cfg, s, o);
      CrashStaysRefused(cfg, d, after, next.pc.cause);
    }
    if after.state == State.Triage && LastCause(after.log).Some?
       && Decisions(after.log, LastCause(after.log).value) > 0 {
      var c := LastCause(after.log).value;
      if |after.log| > |d.log| {
        Append(d.log, after.log[|d.log|]);
      }
      assert LastCause(d.log) == Some(c);
      if Decisions(d.log, c) > 0 {
        HandledMeans(d.log, c);
        assert IsSignal(d.log, c);
        CrashStaysRefused(cfg, d, after, c);
      } else {
        assert s.pc.Asking? && s.pc.cause == c;
        CrashStaysRefused(cfg, d, after, c);
      }
    }
  }

  lemma HandlerOpens(cfg: Config, s: System, o: Oracle)
    requires PcShape(s) && Decisive(cfg, s)
    ensures var next := Advance(cfg, s, o).pc;
      next.Reserved? || next.Invoking? || next.Asking? ==>
        s.pc != Idle && CauseOf(s.pc) == Some(next.cause) && !CrashAccepts(cfg, s.durable, next.cause)
  {
  }

  /**
   A task the environment leaves in triage was there for the same cause, or is there for a new
   event or for a failure that is no exit.
   */
  lemma EnvironmentLastCause(cfg: Config, s: System, step: Step)
    requires Environment(step)
    requires Next(cfg, s, step).durable.state == State.Triage
    ensures var d, after := s.durable, Next(cfg, s, step).durable;
      || (d.state == State.Triage && LastCause(after.log) == LastCause(d.log))
      || LastCause(after.log) == Some(|d.log|)
      || (step.Resume? && LastCause(after.log) == Some(step.failed) && IsSignal(d.log, step.failed)
          && d.log[step.failed].trigger != Recovery.Exited)
  {
  }

  /** The decided cause of a task the environment leaves in triage. */
  lemma EnvironmentTriage(cfg: Config, s: System, step: Step, c: Seq)
    requires Shape(s) && Decisive(cfg, s) && Environment(step)
    requires Decisions(s.durable.log, c) > 0
    requires Next(cfg, s, step).durable.state == State.Triage && LastCause(Next(cfg, s, step).durable.log) == Some(c)
    ensures !CrashAccepts(cfg, Next(cfg, s, step).durable, c)
  {
    var d, after := s.durable, Next(cfg, s, step).durable;
    EnvironmentWrites(cfg, s, step);
    EnvironmentSpares(cfg, s, step);
    EnvironmentLastCause(cfg, s, step);
    HandledMeans(d.log, c);
    assert IsSignal(d.log, c);
    if d.state == State.Triage && LastCause(after.log) == LastCause(d.log) {
      CrashStaysRefused(cfg, d, after, c);
    }
  }

  lemma EnvironmentDecisive(cfg: Config, s: System, step: Step)
    requires Shape(s) && Decisive(cfg, s) && Environment(step)
    ensures Decisive(cfg, Next(cfg, s, step))
  {
    EnvironmentIsQuiet(cfg, s, step);
    var d, after := s.durable, Next(cfg, s, step).durable;
    QuietKeeps(d.log, after.log);
    if s.pc.Reserved? || s.pc.Invoking? || s.pc.Asking? {
      CrashStaysRefused(cfg, d, after, s.pc.cause);
    }
    if after.state == State.Triage && LastCause(after.log).Some?
       && Decisions(after.log, LastCause(after.log).value) > 0 {
      EnvironmentTriage(cfg, s, step, LastCause(after.log).value);
    }
  }

  lemma DeliverDecisive(cfg: Config, s: System, c: Seq, live: bool)
    requires Shape(s) && Decisive(cfg, s)
    ensures Decisive(cfg, Deliver(s, c, live))
  {
    var d, after := s.durable, Deliver(s, c, live).durable;
    HandledMeans(d.log, c);
    if |after.log| > |d.log| {
      Append(d.log, after.log[|d.log|]);
    }
  }

  lemma {:induction false} OrderlyRunsAreSpared(cfg: Config, steps: seq<Step>)
    requires Orderly(cfg, steps)
    ensures Spared(cfg, steps) && Decisive(cfg, Run(cfg, steps))
  {
    if steps != [] {
      var s, step := Run(cfg, steps[..|steps| - 1]), steps[|steps| - 1];
      OrderlyRunsAreSpared(cfg, steps[..|steps| - 1]);
      RunsHaveShape(cfg, steps[..|steps| - 1]);
      match step
      case Handle(c, live) => DeliverDecisive(cfg, s, c, live);
      case Continue(o) => if s.pc != Idle { AdvanceDecisive(cfg, s, o); }
      case Crash =>
      case Abort =>
      case _ => EnvironmentDecisive(cfg, s, step);
    }
  }

  // ---------------------------------------------------------------- the call sites

  predicate Delivers(step: Step, c: Seq) {
    step.Handle? && step.cause == c
  }

  predicate DeliveredIn(steps: seq<Step>, c: Seq) {
    exists i | 0 <= i < |steps| :: Delivers(steps[i], c)
  }

  /**
   What the call sites of the handler do: a signal is delivered once, by whoever recorded it, and
   after a restart a task found in triage is handed the cause that put it there.
   */
  predicate Sited(cfg: Config, steps: seq<Step>) {
    steps == [] ||
    (var before, step := steps[..|steps| - 1], steps[|steps| - 1];
     var d := Run(cfg, before).durable;
     Sited(cfg, before)
     && (step.Handle? ==> !DeliveredIn(before, step.cause)
                          || (d.state == State.Triage && LastCause(d.log) == Some(step.cause))))
  }

  lemma CauseIsDelivered(cfg: Config, s: System, step: Step)
    requires PcShape(s)
    ensures var next := Next(cfg, s, step).pc;
      CauseOf(next).Some? ==> CauseOf(next) == CauseOf(s.pc) || Delivers(step, CauseOf(next).value)
  {
    if step.Continue? {
      AdvanceKeepsCause(cfg, s, step.oracle);
    } else if Environment(step) {
      EnvironmentSpares(cfg, s, step);
    }
  }

  lemma AdvanceKeepsCause(cfg: Config, s: System, o: Oracle)
    ensures CauseOf(Advance(cfg, s, o).pc).Some? ==> CauseOf(Advance(cfg, s, o).pc) == CauseOf(s.pc)
  {
  }

  /** A decision is written by the handler of its cause only. */
  lemma NewDecision(cfg: Config, s: System, step: Step, c: Seq)
    requires PcShape(s)
    ensures Decisions(Next(cfg, s, step).durable.log, c) > Decisions(s.durable.log, c) ==> CauseOf(s.pc) == Some(c)
  {
    var d, after := s.durable, Next(cfg, s, step).durable;
    if Environment(step) {
      EnvironmentWrites(cfg, s, step);
      QuietKeeps(d.log, after.log);
    } else if step.Continue? {
      HandlerWrites(cfg, s, step.oracle);
      if |after.log| > |d.log| {
        Append(d.log, after.log[|d.log|]);
      }
    } else if |after.log| > |d.log| {
      Append(d.log, after.log[|d.log|]);
    }
  }

  lemma {:induction false} DecidedWasDelivered(cfg: Config, steps: seq<Step>, c: Seq)
    requires Decisions(Run(cfg, steps).durable.log, c) > 0 || CauseOf(Run(cfg, steps).pc) == Some(c)
    ensures DeliveredIn(steps, c)
  {
    if steps != [] {
      var before, step := steps[..|steps| - 1], steps[|steps| - 1];
      RunsHaveShape(cfg, before);
      CauseIsDelivered(cfg, Run(cfg, before), step);
      NewDecision(cfg, Run(cfg, before), step, c);
      if Delivers(step, c) {
        assert Delivers(steps[|steps| - 1], c);
      } else {
        DecidedWasDelivered(cfg, before, c);
        var i :| 0 <= i < |before| && Delivers(before[i], c);
        assert Delivers(steps[i], c);
      }
    }
  }

  lemma {:induction false} SitedRunsAreOrderly(cfg: Config, steps: seq<Step>)
    requires Sited(cfg, steps)
    ensures Orderly(cfg, steps)
  {
    if steps != [] {
      var before, step := steps[..|steps| - 1], steps[|steps| - 1];
      SitedRunsAreOrderly(cfg, before);
      if step.Handle? && Decisions(Run(cfg, before).durable.log, step.cause) > 0 {
        DecidedWasDelivered(cfg, before, step.cause);
      }
    }
  }

  // ---------------------------------------------------------------- budgets

  /** The retry, nudge and launch caps. */
  predicate Counts(cfg: Config, d: Durable) {
    && 0 <= d.retries <= cfg.maxRetries
    && NudgesUsed(d.log) <= AtLeast0(cfg.maxNudges)
    && Launches(d.log) + (if Unlaunched(d.state) then 1 else 0) <= 1 + d.retries + Answers(d.log)
  }

  predicate Unlaunched(state: State) {
    state == Blocked || state == Queued
  }

  /** The handler has budget for what it set out to do. */
  predicate Affords(cfg: Config, s: System) {
    && (s.pc.Retrying? || Launching(s.pc) ==> s.durable.retries < cfg.maxRetries)
    && ((s.pc.Decided? || s.pc.Closing? || s.pc.Dispatching?) && s.pc.action == Supervisor.Restart
        ==> s.durable.retries < cfg.maxRetries)
  }

  predicate Budget(cfg: Config, s: System) {
    Counts(cfg, s.durable) && Affords(cfg, s)
  }

  /** What one event of the handler may cost. */
  predicate Paid(cfg: Config, d: Durable, after: Durable, e: Event) {
    && (e.Acted? && e.action == Supervisor.Nudge ==> NudgesUsed(d.log) < AtLeast0(cfg.maxNudges))
    && (IsLaunch(d.log, e) ==> after.retries == d.retries + 1)
  }

  lemma CountsAppend(cfg: Config, d: Durable, after: Durable, e: Event)
    requires Counts(cfg, d) && after.log == d.log + [e] && Paid(cfg, d, after, e)
    requires d.retries <= after.retries <= cfg.maxRetries && !Unlaunched(after.state)
    ensures Counts(cfg, after)
  {
    Append(d.log, e);
  }

  lemma EnterPays(cfg: Config, s: System, o: Oracle)
    requires PcShape(s) && Affords(cfg, s) && s.pc.Entered?
    ensures Affords(cfg, Advance(cfg, s, o))
    ensures var d, after := s.durable, Advance(cfg, s, o).durable;
      && after.retries == d.retries && after.state == d.state
      && (|after.log| > |d.log| ==> Paid(cfg, d, after, after.log[|d.log|]))
  {
  }

  lemma LaunchPays(cfg: Config, s: System, o: Oracle)
    requires PcShape(s) && Affords(cfg, s)
    requires Launching(s.pc) || s.pc.Retrying? || s.pc.Recording?
    ensures Affords(cfg, Advance(cfg, s, o))
    ensures var d, after := s.durable, Advance(cfg, s, o).durable;
      && d.retries <= after.retries <= (if Launching(s.pc) then d.retries + 1 else d.retries)
      && !Unlaunched(after.state)
      && (|after.log| > |d.log| ==> Paid(cfg, d, after, after.log[|d.log|]))
  {
  }

  lemma DecidePays(cfg: Config, s: System, o: Oracle)
    requires PcShape(s) && Affords(cfg, s)
    requires s.pc.Reserved? || s.pc.Invoking? || s.pc.Asking? || s.pc.Decided? || s.pc.Closing? || s.pc.Dispatching?
    ensures Affords(cfg, Advance(cfg, s, o))
    ensures var d, after := s.durable, Advance(cfg, s, o).durable;
      && after.retries == d.retries && !Unlaunched(after.state)
      && (|after.log| > |d.log| ==> Paid(cfg, d, after, after.log[|d.log|]))
  {
  }

  lemma EscalatePays(cfg: Config, s: System, o: Oracle)
    requires PcShape(s) && (s.pc.Interrupted? || s.pc.Marking? || s.pc.Escalating?)
    ensures Affords(cfg, Advance(cfg, s, o))
    ensures var d, after := s.durable, Advance(cfg, s, o).durable;
      && after.retries == d.retries && !Unlaunched(after.state)
      && (|after.log| > |d.log| ==> Paid(cfg, d, after, after.log[|d.log|]))
  {
  }

  lemma HandlerPays(cfg: Config, s: System, o: Oracle)
    requires PcShape(s) && Affords(cfg, s) && s.pc != Idle
    ensures Affords(cfg, Advance(cfg, s, o))
    ensures var d, after := s.durable, Advance(cfg, s, o).durable;
      && d.retries <= after.retries <= (if Launching(s.pc) then d.retries + 1 else d.retries)
      && !Unlaunched(after.state)
      && (|after.log| > |d.log| ==> Paid(cfg, d, after, after.log[|d.log|]))
  {
    if s.pc.Entered? {
      EnterPays(cfg, s, o);
    } else if Launching(s.pc) || s.pc.Retrying? || s.pc.Recording? {
      LaunchPays(cfg, s, o);
    } else if s.pc.Interrupted? || s.pc.Marking? || s.pc.Escalating? {
      EscalatePays(cfg, s, o);
    } else {
      DecidePays(cfg, s, o);
    }
  }

  lemma AdvanceBudget(cfg: Config, s: System, o: Oracle)
    requires PcShape(s) && Budget(cfg, s) && s.pc != Idle
    ensures Budget(cfg, Advance(cfg, s, o))
  {
    var d, after := s.durable, Advance(cfg, s, o).durable;
    HandlerPays(cfg, s, o);
    HandlerWrites(cfg, s, o);
    if |after.log| > |d.log| {
      CountsAppend(cfg, d, after, after.log[|d.log|]);
    }
  }

  lemma DeliverBudget(cfg: Config, s: System, c: Seq, live: bool)
    requires Budget(cfg, s)
    ensures Budget(cfg, Deliver(s, c, live))
  {
    var d, after := s.durable, Deliver(s, c, live).durable;
    if |after.log| > |d.log| {
      CountsAppend(cfg, d, after, after.log[|d.log|]);
    }
  }

  /** Outside the handler only a queued launch spawns, and only an answer queues again. */
  lemma EnvironmentEvents(cfg: Config, s: System, step: Step)
    requires Environment(step)
    ensures var d, after := s.durable, Next(cfg, s, step).durable;
      var n := |d.log|;
      && (step.LaunchQueued? && |after.log| > n ==>
          d.state == Queued && after.state == Running
          && |after.log| == n + 2 && after.log[n].Spawned? && after.log[n + 1].Changed?)
      && (step.Answer? && |after.log| > n ==>
          !Unlaunched(d.state) && |after.log| == n + 2 && after.log[n].Answered? && after.log[n + 1].Changed?
          && after.log[n + 1].to == Queued)
      && (!step.LaunchQueued? && !step.Answer? ==>
          && (Unlaunched(after.state) ==> Unlaunched(d.state))
          && forall i | n <= i < |after.log| ::
               !after.log[i].Answered? && (after.log[i].Changed? ==> after.log[i].to != Running))
      && (|after.log| == n ==> after.state == d.state)
  {
  }

  lemma AppendLaunches(log: Log, a: Event, b: Event)
    ensures Launches(log + [a] + [b]) == Launches(log) + (if IsLaunch(log, a) then 1 else 0)
                                         + (if IsLaunch(log + [a], b) then 1 else 0)
    ensures Answers(log + [a] + [b]) == Answers(log) + (if a.Answered? then 1 else 0) + (if b.Answered? then 1 else 0)
  {
    Append(log, a);
    Append(log + [a], b);
  }

  lemma QuietLaunches(before: Log, after: Log)
    requires Quiet(before, after)
    requires forall i | |before| <= i < |after| :: !after[i].Answered? && (after[i].Changed? ==> after[i].to != Running)
    ensures Launches(after) == Launches(before) && Answers(after) == Answers(before)
  {
    QuietForms(before, after);
    if |after| == |before| + 1 {
      Append(before, after[|before|]);
    } else if |after| == |before| + 2 {
      AppendLaunches(before, after[|before|], after[|before| + 1]);
    }
  }

  lemma EnvironmentLaunches(cfg: Config, s: System, step: Step)
    requires Environment(step)
    ensures var d, after := s.durable, Next(cfg, s, step).durable;
      Launches(after.log) + (if Unlaunched(after.state) then 1 else 0) + Answers(d.log)
      <= Launches(d.log) + (if Unlaunched(d.state) then 1 else 0) + Answers(after.log)
  {
    EnvironmentWrites(cfg, s, step);
    EnvironmentEvents(cfg, s, step);
    var d, after := s.durable, Next(cfg, s, step).durable;
    var n := |d.log|;
    QuietForms(d.log, after.log);
    if !step.LaunchQueued? && !step.Answer? {
      QuietLaunches(d.log, after.log);
    } else if |after.log| > n {
      AppendLaunches(d.log, after.log[n], after.log[n + 1]);
    }
  }

  lemma NextBudget(cfg: Config, s: System, step: Step)
    requires Shape(s) && Budget(cfg, s)
    ensures Budget(cfg, Next(cfg, s, step))
  {
    match step
    case Handle(c, live) => DeliverBudget(cfg, s, c, live);
    case Continue(o) => if s.pc != Idle { AdvanceBudget(cfg, s, o); }
    case Crash =>
    case Abort =>
    case _ =>
      EnvironmentIsQuiet(cfg, s, step);
      QuietKeeps(s.durable.log, Next(cfg, s, step).durable.log);
      EnvironmentLaunches(cfg, s, step);
  }

  // ---------------------------------------------------------------- main results

  /**
   At most one recovery per cause, over every run with duplicate, overlapping and reordered
   signals, crashes and failures between any two writes, provided deliveries are orderly.
   */
  lemma OneRecoveryPerCause(cfg: Config, steps: seq<Step>, c: Seq)
    requires Orderly(cfg, steps)
    ensures Recoveries(Run(cfg, steps).durable.log, c) <= 1
    ensures Recoveries(Run(cfg, steps).durable.log, c) == 1 ==> IsSignal(Run(cfg, steps).durable.log, c)
  {
    OrderlyRunsAreSpared(cfg, steps);
    RunsAreOnce(cfg, steps);
    RunsHaveShape(cfg, steps);
  }

  /** Every run of the deliveries the call sites make spends at most one recovery on a cause. */
  lemma CallSitesRecoverOnce(cfg: Config, steps: seq<Step>, c: Seq)
    requires Sited(cfg, steps)
    ensures Recoveries(Run(cfg, steps).durable.log, c) <= 1
  {
    SitedRunsAreOrderly(cfg, steps);
    OneRecoveryPerCause(cfg, steps, c);
  }

  /**
   The caps hold over every run and every oracle, sharp deliveries included: retries, nudges, and
   launches of a worker.
   */
  lemma {:induction false} CapsHold(cfg: Config, steps: seq<Step>)
    requires cfg.maxRetries >= 0
    ensures var d := Run(cfg, steps).durable;
      && 0 <= d.retries <= cfg.maxRetries
      && NudgesUsed(d.log) <= AtLeast0(cfg.maxNudges)
      && Launches(d.log) <= 1 + d.retries + Answers(d.log)
    ensures Budget(cfg, Run(cfg, steps))
  {
    if steps != [] {
      CapsHold(cfg, steps[..|steps| - 1]);
      RunsHaveShape(cfg, steps[..|steps| - 1]);
      NextBudget(cfg, Run(cfg, steps[..|steps| - 1]), steps[|steps| - 1]);
    }
  }

  // ---------------------------------------------------------------- a handler carried on

  /** The handler carried on by the given answers. */
  function Carried(cfg: Config, s: System, os: seq<Oracle>): System {
    if os == [] then s else Advance(cfg, Carried(cfg, s, os[..|os| - 1]), os[|os| - 1])
  }

  // ---------------------------------------------------------------- every delivery ends

  /** The writes a handler may still make. */
  function Rank(pc: Pc): nat {
    match pc
    case Entered(_, _) => 13
    case Reserved(_, _, _) => 12
    case Invoking(_, _, _) => 11
    case Asking(_, _, _) => 10
    case Decided(_, _, _, _, _) => 9
    case Closing(_, _, _, _) => 8
    case Dispatching(_, _, _, _) => 7
    case Retrying(_, _) => 7
    case Launching(_, _, _) => 6
    case Linking(_, _, _, _) => 5
    case Launched(_, _, _, _) => 4
    case Spawning(_, _, _, _) => 3
    case Interrupted(_, _) => 3
    case Starting(_, _, _, _, _) => 2
    case Marking(_) => 2
    case Recording(_) => 1
    case Escalating(_) => 1
    case Idle => 0
  }

  /** Each write brings the handler nearer its end, and it ends with the task out of triage. */
  lemma AdvanceDescends(cfg: Config, s: System, o: Oracle)
    requires PcShape(s) && s.pc != Idle
    ensures Rank(Advance(cfg, s, o).pc) < Rank(s.pc)
    ensures Advance(cfg, s, o).pc == Idle ==> Advance(cfg, s, o).durable.state != State.Triage
  {
  }

  lemma {:induction false} CarriedDescends(cfg: Config, s: System, os: seq<Oracle>)
    requires Shape(s) && s.pc.Entered?
    ensures var t := Carried(cfg, s, os);
      && Shape(t)
      && if t.pc == Idle then t.durable.state != State.Triage else Rank(t.pc) + |os| <= 13
  {
    if os != [] {
      var front, o := os[..|os| - 1], os[|os| - 1];
      CarriedDescends(cfg, s, front);
      var before := Carried(cfg, s, front);
      AdvanceShape(cfg, before, o);
      if before.pc != Idle {
        AdvanceDescends(cfg, before, o);
      }
    }
  }

  /** Undisturbed, a delivery that was let in frees the lock within 13 writes, with the task out of triage. */
  lemma DeliveryResolves(cfg: Config, s: System, os: seq<Oracle>)
    requires Shape(s) && s.pc.Entered? && |os| >= 13
    ensures Carried(cfg, s, os).pc == Idle && Carried(cfg, s, os).durable.state != State.Triage
  {
    CarriedDescends(cfg, s, os);
  }

  // ---------------------------------------------------------------- how sharp deliveries end

  lemma {:induction false} CarriedOnce(cfg: Config, s: System, os: seq<Oracle>)
    requires Shape(s) && Once(cfg, s)
    ensures Shape(Carried(cfg, s, os)) && Once(cfg, Carried(cfg, s, os))
  {
    if os != [] {
      CarriedOnce(cfg, s, os[..|os| - 1]);
      var before, o := Carried(cfg, s, os[..|os| - 1]), os[|os| - 1];
      NextShape(cfg, before, Continue(o));
      NextOnce(cfg, before, Continue(o));
    }
  }

  lemma CarriedMore(cfg: Config, s: System, os: seq<Oracle>, o: Oracle)
    ensures Carried(cfg, s, os + [o]) == Advance(cfg, Carried(cfg, s, os), o)
  {
    assert (os + [o])[..|os|] == os;
  }

  lemma CarriedThree(cfg: Config, s: System, o: Oracle)
    ensures Carried(cfg, s, [o, o, o]) == Advance(cfg, Advance(cfg, Advance(cfg, s, o), o), o)
  {
    CarriedMore(cfg, s, [], o);
    CarriedMore(cfg, s, [o], o);
    CarriedMore(cfg, s, [o, o], o);
    assert [] + [o] == [o] && [o] + [o] == [o, o] && [o, o] + [o] == [o, o, o];
  }

  /** From an accepted crash retry to the launch. */
  lemma CrashRetryLaunches(cfg: Config, s: System, o: Oracle)
    requires Shape(s) && s.pc.Entered? && s.durable.state == State.Triage && CrashAccepts(cfg, s.durable, s.pc.cause)
    ensures var after := Advance(cfg, Advance(cfg, Advance(cfg, s, o), o), o);
      && after.pc.Launched? && after.pc.cause == s.pc.cause && after.pc.how == Deterministic
      && after.durable.state == State.Triage
      && after.durable.log == s.durable.log + [PolicyApplied(false)]
  {
    var s1 := Advance(cfg, s, o);
    assert s1.pc == Retrying(s.pc.cause, false);
    var s2 := Advance(cfg, s1, o);
    assert s2.pc.Launching? && s2.pc.how == Deterministic;
  }

  /** From the launch to the recovery.attempted event. */
  lemma LaunchRecords(cfg: Config, s: System, o: Oracle)
    requires s.pc.Launched? && s.pc.how == Deterministic && s.durable.state == State.Triage
    ensures var s1 := Advance(cfg, s, o);
      var s2 := Advance(cfg, s1, o);
      var s3 := Advance(cfg, s2, o);
      Advance(cfg, s3, o).durable.log == s.durable.log
        + [Spawned(s.pc.attempt)] + [Changed(State.Triage, Running, |s.durable.log|)] + [Attempted(s.pc.cause)]
  {
    var s1 := Advance(cfg, s, o);
    assert s1.pc.Spawning? && s1.pc.attempt == s.pc.attempt && s1.durable.log == s.durable.log;
    var s2 := Advance(cfg, s1, o);
    assert s2.pc.Starting? && s2.durable.log == s.durable.log + [Spawned(s.pc.attempt)];
    assert s2.durable.state == State.Triage;
    var s3 := Advance(cfg, s2, o);
    assert s3.pc == Recording(s.pc.cause);
  }

  lemma {:induction false} HandledDecision(log: Log, c: Seq)
    requires Recoveries(log, c) <= 1 && Decisions(log, c) > 0
    ensures Handled(log, c).Some? && Handled(log, c).value.Acted?
  {
    var before := log[..|log| - 1];
    HandledMeans(before, c);
    if Decisions(before, c) > 0 {
      HandledDecision(before, c);
    }
  }

  lemma SharpEnters(cfg: Config, s: System, c: Seq, live: bool)
    requires Shape(s) && Once(cfg, s) && Sharp(cfg, s, Handle(c, live))
    ensures Deliver(s, c, live) == s.(pc := Entered(c, live))
    ensures Recoveries(s.durable.log, c) == 1
  {
    HandledMeans(s.durable.log, c);
    HandledDecision(s.durable.log, c);
  }

  lemma RecordedTail(log: Log, a: Event, b: Event, x: Event, c: Seq)
    requires !IsRecovery(a, c) && !IsRecovery(b, c) && !IsRecovery(x, c)
    ensures Recoveries(log + [x] + [a] + [b] + [Attempted(c)], c) == Recoveries(log, c) + 1
  {
    Append(log, x);
    Append(log + [x], a);
    Append(log + [x] + [a], b);
    Append(log + [x] + [a] + [b], Attempted(c));
  }

  lemma CarriedFourMore(cfg: Config, s: System, os: seq<Oracle>, o: Oracle)
    ensures Carried(cfg, s, os + [o, o, o, o])
            == Advance(cfg, Advance(cfg, Advance(cfg, Advance(cfg, Carried(cfg, s, os), o), o), o), o)
  {
    CarriedMore(cfg, s, os, o);
    CarriedMore(cfg, s, os + [o], o);
    CarriedMore(cfg, s, os + [o] + [o], o);
    CarriedMore(cfg, s, os + [o] + [o] + [o], o);
    assert os + [o] + [o] + [o] + [o] == os + [o, o, o, o];
  }

  /** A sharp delivery carried through spends a second recovery on its cause. */
  lemma SharpSpendsTwice(cfg: Config, s: System, c: Seq, live: bool, o: Oracle)
    requires Shape(s) && Once(cfg, s) && Sharp(cfg, s, Handle(c, live))
    ensures Recoveries(Carried(cfg, Deliver(s, c, live), [o, o, o] + [o, o, o, o]).durable.log, c) == 2
  {
    var start := Deliver(s, c, live);
    SharpEnters(cfg, s, c, live);
    CrashRetryLaunches(cfg, start, o);
    CarriedThree(cfg, start, o);
    var at := Carried(cfg, start, [o, o, o]);
    LaunchRecords(cfg, at, o);
    CarriedFourMore(cfg, start, [o, o, o], o);
    RecordedTail(start.durable.log, Spawned(at.pc.attempt), Changed(State.Triage, Running, |at.durable.log|),
                 PolicyApplied(false), c);
  }

  predicate SpendsTwice(cfg: Config, s: System, os: seq<Oracle>, c: Seq) {
    Recoveries(Carried(cfg, s, os).durable.log, c) > 1
  }

  /**
   The exact condition: after any run without a sharp delivery, a delivery can be carried on to a
   second recovery of its cause if and only if it is sharp.
   */
  lemma SecondRecoveryIffSharp(cfg: Config, steps: seq<Step>, c: Seq, live: bool)
    requires Spared(cfg, steps)
    ensures Sharp(cfg, Run(cfg, steps), Handle(c, live))
            <==> exists os :: SpendsTwice(cfg, Deliver(Run(cfg, steps), c, live), os, c)
  {
    var s := Run(cfg, steps);
    RunsHaveShape(cfg, steps);
    RunsAreOnce(cfg, steps);
    if Sharp(cfg, s, Handle(c, live)) {
      var o := Oracle(Supervisor.EscalateHuman, false);
      SharpSpendsTwice(cfg, s, c, live, o);
      assert SpendsTwice(cfg, Deliver(s, c, live), [o, o, o] + [o, o, o, o], c);
    } else {
      NextShape(cfg, s, Handle(c, live));
      NextOnce(cfg, s, Handle(c, live));
      forall os ensures !SpendsTwice(cfg, Deliver(s, c, live), os, c) {
        CarriedOnce(cfg, Deliver(s, c, live), os);
      }
    }
  }
}
