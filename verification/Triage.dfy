/**
 Triage and recovery of one task (_handle_triage and the recovery paths in scheduler/core.py,
 with reconcile.py, packet.py and actions.py) as a state machine. Each step is one committed
 write together with the reads before it, so a crash or an exception can fall between any two
 writes. The supervisor, the workers, the verifier and process liveness are arbitrary.
 */
module Triage {
  import opened Wrappers
  import opened States
  import Recovery
  import Supervisor

  type Seq = nat       // position of an event in the log
  type Trigger = Recovery.Trigger
  type Action = Supervisor.Action

  datatype Config = Config(
    crashRecovery: bool, protocolRecovery: bool, publicRecovery: bool, repeatedThreshold: nat,
    maxRetries: int, maxNudges: int, yolo: bool)

  /** The events of this task that triage writes or reads; Note stands for every other one. */
  datatype Event =
    | Signal(trigger: Trigger, attempt: nat, exitCode: int, evidence: Recovery.Evidence)
    | Changed(frm: State, to: State, cause: Seq)
    | PolicyApplied(protocolRepair: bool)
    | Invoked(invokedFor: Seq)
    | Acted(actedFor: Seq, action: Action, intervention: nat)
    | Attempted(attemptedFor: Seq)
    | Spawned(spawned: nat)
    | Answered
    | Note

  type Log = seq<Event>

  datatype Disposition = Created | Started | Ended | RetryRequested | Settled

  datatype Cause = NoCause | WorkerExit | OtherCause

  /** Attempts of the task by attempt_no - 1; each one's parent is the one before it. */
  datatype Attempt = Attempt(disposition: Disposition, failure: Cause, signature: Option<nat>)

  datatype Intervention = Intervention(source: nat, ended: bool, target: Option<nat>)

  /** What survives a crash. */
  datatype Durable = Durable(
    state: State, retries: int, current: nat, attempts: seq<Attempt>,
    interventions: seq<Intervention>, log: Log)

  datatype How = Deterministic | Supervised(intervention: nat)

  /** Where the one handler holding the task's triage lock stands. */
  datatype Pc =
    | Idle
    | Entered(cause: Seq, live: bool)
    | Retrying(cause: Seq, protocol: bool)
    | Reserved(cause: Seq, live: bool, intervention: nat)
    | Invoking(cause: Seq, live: bool, intervention: nat)
    | Asking(cause: Seq, live: bool, intervention: nat)
    | Decided(cause: Seq, action: Action, acted: Seq, intervention: nat, isNew: bool)
    | Closing(acted: Seq, cause: Seq, action: Action, intervention: nat)
    | Dispatching(cause: Seq, action: Action, acted: Seq, intervention: nat)
    | Launching(cause: Seq, retries: int, how: How)
    | Linking(cause: Seq, retries: int, how: How, attempt: nat)
    | Launched(cause: Seq, retries: int, how: How, attempt: nat)
    | Spawning(cause: Seq, retries: int, how: How, attempt: nat)
    | Starting(cause: Seq, retries: int, how: How, attempt: nat, spawn: Seq)
    | Recording(cause: Seq)
    | Interrupted(policy: Seq, intervention: nat)
    | Marking(policy: Seq)
    | Escalating(policy: Seq)

  /** `waiting` is the in-memory _wait_grace entry of the task. */
  datatype System = System(durable: Durable, pc: Pc, waiting: bool)

  function Initial(): System {
    System(Durable(Blocked, 0, 0, [], [], []), Idle, false)
  }

  // ---------------------------------------------------------------- reads of the log

  predicate IsRecovery(e: Event, c: Seq) {
    (e.Acted? && e.actedFor == c) || (e.Attempted? && e.attemptedFor == c)
  }

  /** The first recovery event of the cause, as the guard under the lock looks it up. */
  function Handled(log: Log, c: Seq): Option<Event> {
    if log == [] then None
    else
      var before := Handled(log[..|log| - 1], c);
      if before.Some? then before
      else if IsRecovery(log[|log| - 1], c) then Some(log[|log| - 1]) else None
  }

  /** The newest supervisor.acted event of the cause. */
  function Persisted(log: Log, c: Seq): (k: Option<Seq>)
    ensures k.Some? ==> k.value < |log| && log[k.value].Acted? && log[k.value].actedFor == c
  {
    if log == [] then None
    else if log[|log| - 1].Acted? && log[|log| - 1].actedFor == c then Some(|log| - 1)
    else Persisted(log[..|log| - 1], c)
  }

  function NudgesUsed(log: Log): nat {
    if log == [] then 0
    else NudgesUsed(log[..|log| - 1])
         + if log[|log| - 1].Acted? && log[|log| - 1].action == Supervisor.Nudge then 1 else 0
  }

  function ProtocolRepairs(log: Log): nat {
    if log == [] then 0
    else ProtocolRepairs(log[..|log| - 1])
         + if log[|log| - 1].PolicyApplied? && log[|log| - 1].protocolRepair then 1 else 0
  }

  /** An exit or stall of this attempt has already been recorded. */
  predicate EndReported(log: Log, attempt: nat) {
    exists i | 0 <= i < |log| ::
      log[i].Signal? && log[i].trigger in {Recovery.Exited, Recovery.Stalled} && log[i].attempt == attempt
  }

  /** The cause_seq of the newest task.state_changed. */
  function LastCause(log: Log): Option<Seq> {
    if log == [] then None
    else if log[|log| - 1].Changed? then Some(log[|log| - 1].cause)
    else LastCause(log[..|log| - 1])
  }

  // ---------------------------------------------------------------- reads of the tables

  function Latest(d: Durable): Attempt
    requires d.attempts != []
  {
    d.attempts[|d.attempts| - 1]
  }

  /** _apply_deterministic_crash_recovery goes ahead. */
  predicate CrashAccepts(cfg: Config, d: Durable, c: Seq) {
    && cfg.crashRecovery && c < |d.log| && d.log[c].Signal? && d.log[c].trigger == Recovery.Exited
    && d.log[c].exitCode != 0
    && d.attempts != [] && Latest(d).failure == WorkerExit
    && d.retries < cfg.maxRetries
  }

  /** _apply_protocol_recovery goes ahead. */
  predicate ProtocolAccepts(cfg: Config, d: Durable, c: Seq) {
    && cfg.protocolRecovery && c < |d.log| && d.log[c].Signal? && d.log[c].trigger == Recovery.Incomplete
    && d.attempts != [] && d.retries < cfg.maxRetries
    && Recovery.ChooseRecovery(Recovery.ProtocolIncomplete, d.retries, cfg.maxRetries, ProtocolRepairs(d.log), false)
       == Recovery.Repair
  }

  /** _apply_public_recovery goes ahead. */
  predicate PublicAccepts(cfg: Config, d: Durable, c: Seq) {
    && cfg.publicRecovery && c < |d.log| && d.log[c].Signal?
    && d.log[c].trigger in {Recovery.VerifyFailed, Recovery.ArtifactFailed, Recovery.InterfaceFailed}
    && d.attempts != []
    && Recovery.Relaunches(Recovery.ChooseRecovery(
         Recovery.ClassifyFailure(d.log[c].trigger, d.log[c].evidence), d.retries, cfg.maxRetries, 0, false))
  }

  /** Earlier attempts that failed with the same signature. */
  function SameSignature(attempts: seq<Attempt>, signature: nat): nat {
    if attempts == [] then 0
    else SameSignature(attempts[..|attempts| - 1], signature)
         + if attempts[|attempts| - 1].signature == Some(signature) then 1 else 0
  }

  /** _apply_deterministic_policy escalates; `changed` is the verdict of the tree comparison. */
  predicate PolicyEscalates(cfg: Config, d: Durable, changed: bool) {
    && d.attempts != [] && Latest(d).signature.Some?
    && var same := SameSignature(d.attempts[..|d.attempts| - 1], Latest(d).signature.value);
       || (same >= cfg.repeatedThreshold && !changed)
       || (d.retries >= cfg.maxRetries && |d.attempts| > 1)
  }

  function Unfinished(v: seq<Intervention>): Option<nat> {
    if v == [] then None
    else if !v[|v| - 1].ended then Some(|v| - 1) else Unfinished(v[..|v| - 1])
  }

  function AtLeast0(n: int): nat {
    if n < 0 then 0 else n
  }

  /** build_packet and compute_allowed_actions. */
  predicate OnMenu(cfg: Config, d: Durable, c: Seq, live: bool, a: Action) {
    c < |d.log| && d.log[c].Signal?
    && Supervisor.Allowed(a, d.log[c].trigger, AtLeast0(cfg.maxNudges - NudgesUsed(d.log)),
                          AtLeast0(cfg.maxRetries - d.retries), cfg.yolo, live)
  }

  /** The created child of an earlier, interrupted launch that _launch would take up again. */
  function Reusable(d: Durable, how: How): Option<nat> {
    if how == Deterministic || how.intervention >= |d.interventions| then None
    else
      var v := d.interventions[how.intervention];
      if v.target.Some? && v.target.value < |d.attempts| && d.attempts[v.target.value].disposition == Created
      then v.target
      else if |d.attempts| > 1 && Latest(d).disposition == Created && v.source == |d.attempts| - 2
      then Some(|d.attempts| - 1)
      else None
  }

  // ---------------------------------------------------------------- writes

  function Write(d: Durable, e: Event): Durable {
    d.(log := d.log + [e])
  }

  /** transition, when legal. */
  function Move(d: Durable, to: State, cause: Seq): Durable {
    Write(d, Changed(d.state, to, cause)).(state := to)
  }

  function Mark(d: Durable, attempt: nat, disposition: Disposition): Durable {
    if attempt < |d.attempts|
    then d.(attempts := d.attempts[attempt := d.attempts[attempt].(disposition := disposition)])
    else d
  }

  function MarkLatest(d: Durable, disposition: Disposition): Durable {
    if d.attempts == [] then d else Mark(d, |d.attempts| - 1, disposition)
  }

  // ---------------------------------------------------------------- the handler

  datatype Oracle = Oracle(answer: Action, treeChanged: bool)

  /** _handle_triage: the guards under the lock, then running -> triage. */
  function Deliver(s: System, c: Seq, live: bool): System {
    var d := s.durable;
    if s.pc != Idle || c >= |d.log| || !d.log[c].Signal? then s
    else if d.state in {NeedsHuman, Delivered, Failed, Cancelled, DependencyBlocked} then s
    else if Handled(d.log, c).Some? && !(Handled(d.log, c).value.Acted? && d.state == State.Triage) then s
    else if d.state == State.Triage then s.(pc := Entered(c, live))
    else if !Legal(d.state, State.Triage) then s
    else s.(durable := Move(d, State.Triage, c), pc := Entered(c, live))
  }

  /** _handle_triage_inner: which path this cause takes. */
  function Enter(cfg: Config, d: Durable, c: Seq, live: bool, o: Oracle): (Durable, Pc) {
    if CrashAccepts(cfg, d, c) then (Write(d, PolicyApplied(false)), Retrying(c, false))
    else if ProtocolAccepts(cfg, d, c) then (Write(d, PolicyApplied(true)), Retrying(c, true))
    else if PublicAccepts(cfg, d, c) then (Write(d, PolicyApplied(false)), Retrying(c, false))
    else if PolicyEscalates(cfg, d, o.treeChanged) then (Write(d, PolicyApplied(false)), Marking(|d.log|))
    else match Unfinished(d.interventions)
      case Some(i) => (Write(d, PolicyApplied(false)), Interrupted(|d.log|, i))
      case None =>
        match Persisted(d.log, c)
        case Some(k) =>
          var a := if OnMenu(cfg, d, c, live, d.log[k].action) then d.log[k].action else Supervisor.EscalateHuman;
          (d, Decided(c, a, k, d.log[k].intervention, false))
        case None =>
          var source := if d.attempts == [] then 0 else |d.attempts| - 1;
          (d.(interventions := d.interventions + [Intervention(source, false, None)]),
           Reserved(c, live, |d.interventions|))
  }

  /** The dispatch of a decided action. */
  function Dispatch(s: System, c: Seq, a: Action, acted: Seq, i: nat): System {
    var d := s.durable;
    match a
    case Nudge =>
      if Legal(d.state, Running) then System(Move(d, Running, acted), Idle, s.waiting) else s.(pc := Idle)
    case Wait =>
      if Legal(d.state, Running) then System(Move(d, Running, acted), Idle, true)
      else s.(pc := Idle, waiting := true)
    case Restart => s.(pc := Launching(c, d.retries + 1, Supervised(i)), waiting := false)
    case EscalateHuman => s.(pc := Marking(acted))
    case Abandon =>
      if Legal(d.state, Failed) then s.(durable := Move(d, Failed, acted), pc := Idle) else s.(pc := Idle)
  }

  /** The next write of the handler that holds the lock. */
  function Advance(cfg: Config, s: System, o: Oracle): System {
    var d := s.durable;
    match s.pc
    case Idle => s
    case Entered(c, live) =>
      var (after, pc) := Enter(cfg, d, c, live, o);
      s.(durable := after, pc := pc)
    case Retrying(c, protocol) =>
      var marked := MarkLatest(d, RetryRequested);
      var failure := if protocol && d.attempts != []
                     then marked.(attempts := marked.attempts[
                       |d.attempts| - 1 := Latest(marked).(failure := OtherCause)])
                     else marked;
      s.(durable := failure, pc := Launching(c, d.retries + 1, Deterministic), waiting := false)
    case Reserved(c, live, i) => s.(durable := MarkLatest(d, Settled), pc := Invoking(c, live, i))
    case Invoking(c, live, i) => s.(durable := Write(d, Invoked(c)), pc := Asking(c, live, i))
    case Asking(c, live, i) =>
      var a := if OnMenu(cfg, d, c, live, o.answer) then o.answer else Supervisor.EscalateHuman;
      s.(durable := Write(d, Acted(c, a, i)), pc := Decided(c, a, |d.log|, i, true))
    case Decided(c, a, k, i, isNew) =>
      s.(durable := MarkLatest(d, if a == Supervisor.Restart then RetryRequested else Settled),
         pc := if isNew then Closing(k, c, a, i) else Dispatching(c, a, k, i))
    case Closing(k, c, a, i) =>
      s.(durable := EndIntervention(d, i), pc := Dispatching(c, a, k, i))
    case Dispatching(c, a, k, i) => Dispatch(s, c, a, k, i)
    case Launching(c, r, how) =>
      (match Reusable(d, how)
       case Some(a) => s.(pc := Launched(c, r, how, a))
       case None =>
         s.(durable := d.(attempts := d.attempts + [Attempt(Created, NoCause, None)]),
            pc := if how == Deterministic then Launched(c, r, how, |d.attempts|) else Linking(c, r, how, |d.attempts|)))
    case Linking(c, r, how, a) =>
      s.(durable := Linked(d, how, a), pc := Launched(c, r, how, a))
    case Launched(c, r, how, a) => s.(durable := Mark(d, a, Started), pc := Spawning(c, r, how, a))
    case Spawning(c, r, how, a) =>
      s.(durable := Write(d, Spawned(a)), pc := Starting(c, r, how, a, |d.log|))
    case Starting(c, r, how, a, k) =>
      if !Legal(d.state, Running) then s.(pc := Idle)
      else s.(durable := Move(d, Running, k).(retries := r, current := a),
              pc := if how == Deterministic then Recording(c) else Idle)
    case Recording(c) => s.(durable := Write(d, Attempted(c)), pc := Idle)
    case Interrupted(k, i) => s.(durable := EndIntervention(d, i), pc := Marking(k))
    case Marking(k) => s.(durable := MarkLatest(d, Settled), pc := Escalating(k))
    case Escalating(k) =>
      if Legal(d.state, NeedsHuman) then s.(durable := Move(d, NeedsHuman, k), pc := Idle) else s.(pc := Idle)
  }

  function EndIntervention(d: Durable, i: nat): Durable {
    if i < |d.interventions| then d.(interventions := d.interventions[i := d.interventions[i].(ended := true)]) else d
  }

  function Linked(d: Durable, how: How, a: nat): Durable {
    if how.Supervised? && how.intervention < |d.interventions|
    then d.(interventions := d.interventions[how.intervention := d.interventions[how.intervention].(target := Some(a))])
    else d
  }

  // ---------------------------------------------------------------- everything else that happens

  datatype Step =
    | Handle(cause: Seq, live: bool)
    | Continue(oracle: Oracle)
    | Crash
    | Abort
    | Report(trigger: Trigger, exitCode: int, evidence: Recovery.Evidence, signature: Option<nat>)
    | Reconcile
    | Resume(failed: Seq)
    | Satisfied
    | Unsatisfiable
    | LaunchQueued
    | LaunchQueuedInterrupted
    | Claim
    | Verified
    | FinishDelivery
    | Answer
    | Cancel
    | Remark

  /**
   A failure signal: the event, then what it records on the current attempt. An exit or stall of
   a running task is dropped when one is already recorded for the attempt, except a stall inside
   a new wait window. The teardown that follows an exit, dropped or not, closes the wait window.
   A question is recorded on the newest attempt whatever the state of the task.
   */
  function ReportStep(s: System, t: Trigger, exitCode: int, e: Recovery.Evidence, signature: Option<nat>): System {
    var d := s.durable;
    var ends := t in {Recovery.Exited, Recovery.Stalled};
    var torn := t in {Recovery.Exited, Recovery.Stalled, Recovery.TimedOut, Recovery.Incomplete};
    var dropped := if t == Recovery.Exited then s.(waiting := false) else s;
    if t == Recovery.Asked then
      if d.attempts == [] then s else s.(durable := Write(d, Signal(t, |d.attempts| - 1, exitCode, e)))
    else if d.attempts == [] || d.state !in {Running, Verifying, Delivering} then dropped
    else if (ends || t in {Recovery.TimedOut, Recovery.Incomplete}) && d.state != Running then dropped
    else if ends && EndReported(d.log, d.current) && !(t == Recovery.Stalled && s.waiting) then dropped
    else
      var written := Write(d, Signal(t, d.current, exitCode, e));
      if d.current >= |d.attempts| then s.(durable := written)
      else
        var a := d.attempts[d.current];
        var noted :=
          if t == Recovery.Exited then a.(failure := WorkerExit, disposition := Disposition.Ended)
          else if t in {Recovery.Incomplete, Recovery.VerifyFailed, Recovery.ArtifactFailed}
          then a.(failure := OtherCause, disposition := Disposition.Ended,
                  signature := if signature.Some? then signature else a.signature)
          else a;
        s.(durable := written.(attempts := d.attempts[d.current := noted]),
           waiting := if torn then false else s.waiting)
  }

  /** reconcile of a running task whose session is dead and that left no done claim. */
  function ReconcileStep(s: System): System {
    var d := s.durable;
    if s.pc != Idle || d.state != Running || d.current >= |d.attempts| then s
    else
      var written := Write(d, Signal(Recovery.Exited, d.current, 0, Recovery.Evidence("", "", "")));
      var noted := d.attempts[d.current].(failure := WorkerExit, disposition := Disposition.Ended);
      s.(durable := Move(written.(attempts := d.attempts[d.current := noted]), State.Triage, |d.log|))
  }

  /**
   The restart of an interrupted verification or delivery: a failure recorded for the current
   attempt puts the task in triage for it, before the handler takes the lock.
   */
  function ResumeStep(s: System, c: Seq): System {
    var d := s.durable;
    if s.pc != Idle || c >= |d.log| || !d.log[c].Signal? || d.log[c].attempt != d.current then s
    else if (d.state == Verifying && d.log[c].trigger == Recovery.VerifyFailed)
            || (d.state == Delivering && d.log[c].trigger in {Recovery.DeliveryFailed, Recovery.ArtifactFailed})
    then s.(durable := Move(d, State.Triage, c))
    else s
  }

  /** A transition made outside triage. */
  function Outside(s: System, frm: State, to: State): System {
    if s.durable.state == frm then s.(durable := Move(Write(s.durable, Note), to, |s.durable.log|)) else s
  }

  /** _launch of a queued task. */
  function LaunchQueuedStep(s: System, completes: bool): System {
    var d := s.durable;
    if s.pc != Idle || d.state != Queued then s
    else
      var created := d.(attempts := d.attempts + [Attempt(if completes then Started else Created, NoCause, None)]);
      if !completes then s.(durable := created)
      else s.(durable := Move(Write(created, Spawned(|d.attempts|)), Running, |d.log|).(current := |d.attempts|))
  }

  function Next(cfg: Config, s: System, step: Step): System {
    match step
    case Handle(c, live) => Deliver(s, c, live)
    case Continue(o) => Advance(cfg, s, o)
    case Crash => s.(pc := Idle, waiting := false)
    case Abort => s.(pc := Idle)
    case Report(t, x, e, g) => ReportStep(s, t, x, e, g)
    case Reconcile => ReconcileStep(s)
    case Resume(c) => ResumeStep(s, c)
    case Satisfied => Outside(s, Blocked, Queued)
    case Unsatisfiable => Outside(s, Blocked, DependencyBlocked)
    case LaunchQueued => LaunchQueuedStep(s, true)
    case LaunchQueuedInterrupted => LaunchQueuedStep(s, false)
    case Claim => Outside(s, Running, Verifying).(waiting := s.waiting && s.durable.state != Running)
    case Verified => Outside(s, Verifying, Delivering)
    case FinishDelivery => Outside(s, Delivering, Delivered)
    case Answer => if s.durable.state == NeedsHuman
                   then s.(durable := Move(Write(s.durable, Answered), Queued, |s.durable.log|)) else s
    case Cancel => if Legal(s.durable.state, Cancelled)
                   then s.(durable := Move(Write(s.durable, Note), Cancelled, |s.durable.log|)) else s
    case Remark => s.(durable := Write(s.durable, Note))
  }

  function Run(cfg: Config, steps: seq<Step>): System {
    if steps == [] then Initial() else Next(cfg, Run(cfg, steps[..|steps| - 1]), steps[|steps| - 1])
  }
}
