/**
 Supervisor calls. A delivery leads to a call exactly when nothing short of the supervisor
 resolves its cause; a run calls twice for one cause only through such a delivery.
 */
module TriageCalls {
  import opened Wrappers
  import opened States
  import opened Triage
  import opened TriageSafety
  import Supervisor

  /** The recorded calls of one cause. */
  function Calls(log: Log, c: Seq): nat {
    if log == [] then 0 else Calls(log[..|log| - 1], c) + if log[|log| - 1] == Invoked(c) then 1 else 0
  }

  lemma CallsAppend(log: Log, e: Event)
    ensures forall c :: Calls(log + [e], c) == Calls(log, c) + if e == Invoked(c) then 1 else 0
  {
    assert (log + [e])[..|log|] == log;
  }

  lemma {:induction false} NoCalls(log: Log, c: Seq)
    requires forall i | 0 <= i < |log| :: log[i] != Invoked(c)
    ensures Calls(log, c) == 0
  {
    if log != [] {
      NoCalls(log[..|log| - 1], c);
    }
  }

  // ---------------------------------------------------------------- one delivery

  /** Neither a deterministic path, nor an open intervention, nor a persisted decision resolves the cause. */
  predicate GoesToSupervisor(cfg: Config, d: Durable, c: Seq, treeChanged: bool) {
    && !CrashAccepts(cfg, d, c) && Refused(cfg, d, c) && !PolicyEscalates(cfg, d, treeChanged)
    && Unfinished(d.interventions).None? && Persisted(d.log, c).None?
  }

  predicate MayGoToSupervisor(cfg: Config, d: Durable, c: Seq) {
    exists treeChanged :: GoesToSupervisor(cfg, d, c, treeChanged)
  }

  /** The handler has its call behind it, or will make none. */
  predicate Past(pc: Pc) {
    !pc.Entered? && !pc.Reserved? && !pc.Invoking?
  }

  /** At most one event, and no call. */
  predicate Callless(before: Log, after: Log) {
    after == before
    || (|after| == |before| + 1 && after == before + [after[|before|]] && !after[|before|].Invoked?)
  }

  lemma CalllessKeeps(before: Log, after: Log)
    requires Callless(before, after)
    ensures forall c :: Calls(after, c) == Calls(before, c)
  {
    if after != before {
      CallsAppend(before, after[|before|]);
    }
  }

  lemma PastStays(cfg: Config, s: System, o: Oracle)
    requires Past(s.pc)
    ensures Past(Advance(cfg, s, o).pc) && Callless(s.durable.log, Advance(cfg, s, o).durable.log)
  {
  }

  lemma EnterIsPast(cfg: Config, s: System, o: Oracle)
    requires s.pc.Entered? && !GoesToSupervisor(cfg, s.durable, s.pc.cause, o.treeChanged)
    ensures Past(Advance(cfg, s, o).pc) && Callless(s.durable.log, Advance(cfg, s, o).durable.log)
  {
  }

  lemma {:induction false} PastCallsNobody(cfg: Config, s: System, os: seq<Oracle>)
    requires Past(s.pc) || (s.pc.Entered? && !MayGoToSupervisor(cfg, s.durable, s.pc.cause))
    ensures os == [] || Past(Carried(cfg, s, os).pc)
    ensures forall c :: Calls(Carried(cfg, s, os).durable.log, c) == Calls(s.durable.log, c)
  {
    if os != [] {
      var front, o := os[..|os| - 1], os[|os| - 1];
      PastCallsNobody(cfg, s, front);
      var before := Carried(cfg, s, front);
      if Past(before.pc) {
        PastStays(cfg, before, o);
      } else {
        EnterIsPast(cfg, before, o);
      }
      CalllessKeeps(before.durable.log, Carried(cfg, s, os).durable.log);
    }
  }

  /** The reservation, its update and the recorded call. */
  lemma CallIsMade(cfg: Config, s: System, o: Oracle)
    requires s.pc.Entered? && GoesToSupervisor(cfg, s.durable, s.pc.cause, o.treeChanged)
    ensures Advance(cfg, Advance(cfg, Advance(cfg, s, o), o), o).durable.log == s.durable.log + [Invoked(s.pc.cause)]
  {
    var s1 := Advance(cfg, s, o);
    assert s1.pc == Reserved(s.pc.cause, s.pc.live, |s.durable.interventions|) && s1.durable.log == s.durable.log;
    var s2 := Advance(cfg, s1, o);
    assert s2.pc.Invoking? && s2.pc.cause == s.pc.cause && s2.durable.log == s.durable.log;
  }

  lemma DeliverCallsNobody(s: System, c: Seq, live: bool)
    ensures forall x :: Calls(Deliver(s, c, live).durable.log, x) == Calls(s.durable.log, x)
  {
    CalllessKeeps(s.durable.log, Deliver(s, c, live).durable.log);
  }

  predicate CallsMore(cfg: Config, s: System, e: System, os: seq<Oracle>, c: Seq) {
    Calls(Carried(cfg, e, os).durable.log, c) > Calls(s.durable.log, c)
  }

  /**
   In every state in which the lock is free, a delivery can be carried on to a supervisor call for
   its cause if and only if the guard lets it in and nothing short of the supervisor resolves it.
   */
  lemma DeliveryCallsIff(cfg: Config, s: System, c: Seq, live: bool)
    requires s.pc == Idle
    ensures var e := Deliver(s, c, live);
      (exists os :: CallsMore(cfg, s, e, os, c)) <==> e.pc.Entered? && MayGoToSupervisor(cfg, e.durable, c)
  {
    var e := Deliver(s, c, live);
    DeliverCallsNobody(s, c, live);
    if e.pc.Entered? && MayGoToSupervisor(cfg, e.durable, c) {
      var treeChanged :| GoesToSupervisor(cfg, e.durable, c, treeChanged);
      var o := Oracle(Supervisor.EscalateHuman, treeChanged);
      CallIsMade(cfg, e, o);
      CarriedThree(cfg, e, o);
      CallsAppend(e.durable.log, Invoked(c));
      assert CallsMore(cfg, s, e, [o, o, o], c);
    } else {
      forall os ensures !CallsMore(cfg, s, e, os, c) {
        PastCallsNobody(cfg, e, os);
      }
    }
  }

  // ---------------------------------------------------------------- whole runs

  /** A delivery of a cause the supervisor was called for already, which leads to it again. */
  predicate CallsAgain(cfg: Config, s: System, step: Step) {
    && step.Handle? && s.pc == Idle && Calls(s.durable.log, step.cause) > 0
    && var e := Deliver(s, step.cause, step.live);
       e.pc.Entered? && MayGoToSupervisor(cfg, e.durable, step.cause)
  }

  /** No delivery of the run is one of these. */
  predicate NeverAgain(cfg: Config, steps: seq<Step>) {
    steps == [] ||
    (NeverAgain(cfg, steps[..|steps| - 1])
     && !CallsAgain(cfg, Run(cfg, steps[..|steps| - 1]), steps[|steps| - 1]))
  }

  /** The handler calls only for a cause it has not called for. */
  ghost predicate CalledOnce(cfg: Config, s: System) {
    && (forall c :: Calls(s.durable.log, c) <= 1)
    && (s.pc.Reserved? || s.pc.Invoking? ==> Calls(s.durable.log, s.pc.cause) == 0)
    && (s.pc.Entered? && Calls(s.durable.log, s.pc.cause) > 0 ==> !MayGoToSupervisor(cfg, s.durable, s.pc.cause))
  }

  lemma EnterCalledOnce(cfg: Config, s: System, o: Oracle)
    requires CalledOnce(cfg, s) && s.pc.Entered?
    ensures CalledOnce(cfg, Advance(cfg, s, o))
  {
    if GoesToSupervisor(cfg, s.durable, s.pc.cause, o.treeChanged) {
      assert Advance(cfg, s, o).pc.Reserved? && Advance(cfg, s, o).durable.log == s.durable.log;
    } else {
      EnterIsPast(cfg, s, o);
      CalllessKeeps(s.durable.log, Advance(cfg, s, o).durable.log);
    }
  }

  lemma AdvanceCalledOnce(cfg: Config, s: System, o: Oracle)
    requires CalledOnce(cfg, s)
    ensures CalledOnce(cfg, Advance(cfg, s, o))
  {
    if s.pc.Entered? {
      EnterCalledOnce(cfg, s, o);
    } else if s.pc.Reserved? {
      assert Advance(cfg, s, o).durable.log == s.durable.log;
    } else if s.pc.Invoking? {
      CallsAppend(s.durable.log, Invoked(s.pc.cause));
    } else {
      PastStays(cfg, s, o);
      CalllessKeeps(s.durable.log, Advance(cfg, s, o).durable.log);
    }
  }

  /** Where the supervisor would be asked depends on what noise and a cancellation leave alone. */
  lemma RouteStays(cfg: Config, d: Durable, after: Durable, c: Seq, treeChanged: bool)
    requires d.log <= after.log && IsSignal(d.log, c)
    requires after.attempts == d.attempts && after.interventions == d.interventions && after.retries == d.retries
    requires ProtocolRepairs(after.log) == ProtocolRepairs(d.log) && Decisions(after.log, c) == Decisions(d.log, c)
    ensures GoesToSupervisor(cfg, after, c, treeChanged) == GoesToSupervisor(cfg, d, c, treeChanged)
  {
    HandledMeans(d.log, c);
    HandledMeans(after.log, c);
  }

  lemma QuietCalls(before: Log, after: Log)
    requires Quiet(before, after)
    ensures forall c :: Calls(after, c) == Calls(before, c)
  {
    QuietForms(before, after);
    if |after| > |before| {
      CallsAppend(before, after[|before|]);
      if |after| > |before| + 1 {
        CallsAppend(before + [after[|before|]], after[|before| + 1]);
      }
    }
  }

  lemma EnvironmentCalledOnce(cfg: Config, s: System, step: Step)
    requires PcShape(s) && CalledOnce(cfg, s) && Environment(step)
    ensures CalledOnce(cfg, Next(cfg, s, step))
  {
    EnvironmentIsQuiet(cfg, s, step);
    var d, after := s.durable, Next(cfg, s, step).durable;
    QuietCalls(d.log, after.log);
    QuietKeeps(d.log, after.log);
    if s.pc.Entered? && MayGoToSupervisor(cfg, after, s.pc.cause) {
      var treeChanged :| GoesToSupervisor(cfg, after, s.pc.cause, treeChanged);
      RouteStays(cfg, d, after, s.pc.cause, treeChanged);
    }
  }

  lemma NextCalledOnce(cfg: Config, s: System, step: Step)
    requires PcShape(s) && CalledOnce(cfg, s) && !CallsAgain(cfg, s, step)
    ensures CalledOnce(cfg, Next(cfg, s, step))
  {
    match step
    case Handle(c, live) => DeliverCallsNobody(s, c, live);
    case Continue(o) => AdvanceCalledOnce(cfg, s, o);
    case Crash =>
    case Abort =>
    case _ => EnvironmentCalledOnce(cfg, s, step);
  }

  lemma {:induction false} RunsCallOnce(cfg: Config, steps: seq<Step>)
    requires NeverAgain(cfg, steps)
    ensures CalledOnce(cfg, Run(cfg, steps))
  {
    if steps != [] {
      RunsCallOnce(cfg, steps[..|steps| - 1]);
      RunsHaveShape(cfg, steps[..|steps| - 1]);
      NextCalledOnce(cfg, Run(cfg, steps[..|steps| - 1]), steps[|steps| - 1]);
    }
  }

  /** The supervisor is called at most once for a cause in every run without such a delivery. */
  lemma OneCallPerCause(cfg: Config, steps: seq<Step>, c: Seq)
    requires NeverAgain(cfg, steps)
    ensures Calls(Run(cfg, steps).durable.log, c) <= 1
  {
    RunsCallOnce(cfg, steps);
  }

  lemma {:induction false} CarriedCalledOnce(cfg: Config, s: System, os: seq<Oracle>)
    requires CalledOnce(cfg, s)
    ensures CalledOnce(cfg, Carried(cfg, s, os))
  {
    if os != [] {
      CarriedCalledOnce(cfg, s, os[..|os| - 1]);
      AdvanceCalledOnce(cfg, Carried(cfg, s, os[..|os| - 1]), os[|os| - 1]);
    }
  }

  predicate CallsTwice(cfg: Config, s: System, os: seq<Oracle>, c: Seq) {
    Calls(Carried(cfg, s, os).durable.log, c) > 1
  }

  /**
   The exact condition: after any run that has not called twice through such a delivery, the next
   delivery can be carried on to a second call for its cause if and only if it is one.
   */
  lemma SecondCallIff(cfg: Config, steps: seq<Step>, c: Seq, live: bool)
    requires NeverAgain(cfg, steps)
    requires Run(cfg, steps).pc == Idle
    ensures (exists os :: CallsTwice(cfg, Deliver(Run(cfg, steps), c, live), os, c))
            <==> CallsAgain(cfg, Run(cfg, steps), Handle(c, live))
  {
    var s := Run(cfg, steps);
    var e := Deliver(s, c, live);
    RunsHaveShape(cfg, steps);
    RunsCallOnce(cfg, steps);
    if CallsAgain(cfg, s, Handle(c, live)) {
      DeliveryCallsIff(cfg, s, c, live);
      var os :| CallsMore(cfg, s, e, os, c);
      assert CallsTwice(cfg, e, os, c);
    } else {
      NextCalledOnce(cfg, s, Handle(c, live));
      forall os ensures !CallsTwice(cfg, e, os, c) {
        CarriedCalledOnce(cfg, e, os);
      }
    }
  }

  // ---------------------------------------------------------------- the call sites

  /** A call is recorded by the handler of its cause only. */
  lemma NewCall(cfg: Config, s: System, step: Step, c: Seq)
    requires PcShape(s)
    ensures Calls(Next(cfg, s, step).durable.log, c) > Calls(s.durable.log, c) ==> CauseOf(s.pc) == Some(c)
  {
    var d, after := s.durable, Next(cfg, s, step).durable;
    if Environment(step) {
      EnvironmentWrites(cfg, s, step);
      QuietCalls(d.log, after.log);
    } else if step.Handle? {
      DeliverCallsNobody(s, step.cause, step.live);
    } else if step.Continue? && Past(s.pc) {
      PastStays(cfg, s, step.oracle);
      CalllessKeeps(d.log, after.log);
    } else if step.Continue? {
      HandlerWrites(cfg, s, step.oracle);
      if |after.log| > |d.log| {
        CallsAppend(d.log, after.log[|d.log|]);
      }
    }
  }

  lemma {:induction false} CalledWasDelivered(cfg: Config, steps: seq<Step>, c: Seq)
    requires Calls(Run(cfg, steps).durable.log, c) > 0
    ensures DeliveredIn(steps, c)
  {
    if steps != [] {
      var before, step := steps[..|steps| - 1], steps[|steps| - 1];
      RunsHaveShape(cfg, before);
      NewCall(cfg, Run(cfg, before), step, c);
      if Calls(Run(cfg, before).durable.log, c) > 0 {
        CalledWasDelivered(cfg, before, c);
      } else {
        DecidedWasDelivered(cfg, before, c);
      }
      var i :| 0 <= i < |before| && Delivers(before[i], c);
      assert Delivers(steps[i], c);
    }
  }

  /**
   Among the deliveries the call sites make, only one that finds the task in triage for that very
   cause can call again: the one after a restart.
   */
  lemma OnlyARestartCallsAgain(cfg: Config, steps: seq<Step>)
    requires steps != [] && Sited(cfg, steps)
    requires CallsAgain(cfg, Run(cfg, steps[..|steps| - 1]), steps[|steps| - 1])
    ensures var d := Run(cfg, steps[..|steps| - 1]).durable;
      d.state == State.Triage && LastCause(d.log) == Some(steps[|steps| - 1].cause)
  {
    CalledWasDelivered(cfg, steps[..|steps| - 1], steps[|steps| - 1].cause);
  }
}
