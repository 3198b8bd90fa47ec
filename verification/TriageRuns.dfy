/**
 Runs on which triage falls short of its comments: a second child after a crash, a second
 supervisor call for one cause, a lost worker exit, and a duplicate delivery that is sharp.
 */
module TriageRuns {
  import opened Wrappers
  import opened States
  import opened Triage
  import opened TriageCalls
  import opened TriageSafety
  import Recovery
  import Supervisor

  /** Some run of the deliveries the call sites make ends in s. */
  ghost predicate Reachable(cfg: Config, s: System) {
    exists steps :: Sited(cfg, steps) && Run(cfg, steps) == s
  }

  /** Such a run that delivered no cause outside `seen`. */
  ghost predicate Reached(cfg: Config, s: System, seen: set<Seq>) {
    exists steps :: Sited(cfg, steps) && Run(cfg, steps) == s && DeliversOnly(steps, seen)
  }

  ghost predicate DeliversOnly(steps: seq<Step>, seen: set<Seq>) {
    forall c: Seq :: DeliveredIn(steps, c) ==> c in seen
  }

  lemma ReachedIsReachable(cfg: Config, s: System, seen: set<Seq>)
    requires Reached(cfg, s, seen)
    ensures Reachable(cfg, s)
  {
  }

  lemma ReachInitial(cfg: Config)
    ensures Reached(cfg, Initial(), {})
  {
    assert Sited(cfg, []) && Run(cfg, []) == Initial() && DeliversOnly([], {});
  }

  lemma DeliveredMore(steps: seq<Step>, step: Step, c: Seq)
    ensures DeliveredIn(steps + [step], c) <==> DeliveredIn(steps, c) || Delivers(step, c)
  {
    var more := steps + [step];
    if DeliveredIn(steps, c) {
      var i :| 0 <= i < |steps| && Delivers(steps[i], c);
      assert Delivers(more[i], c);
    }
    if Delivers(step, c) {
      assert Delivers(more[|steps|], c);
    }
  }

  /** One more step; a delivery is new, or hands a task in triage the cause that put it there. */
  lemma ReachMore(cfg: Config, s: System, step: Step, seen: set<Seq>, more: set<Seq>)
    requires Reached(cfg, s, seen) && seen <= more
    requires step.Handle? ==>
      && step.cause in more
      && (step.cause !in seen || (s.durable.state == State.Triage && LastCause(s.durable.log) == Some(step.cause)))
    ensures Reached(cfg, Next(cfg, s, step), more)
  {
    var steps :| Sited(cfg, steps) && Run(cfg, steps) == s && DeliversOnly(steps, seen);
    var longer := steps + [step];
    assert longer[..|steps|] == steps;
    forall c: Seq | DeliveredIn(longer, c) ensures c in more {
      DeliveredMore(steps, step, c);
    }
    assert Sited(cfg, longer) && Run(cfg, longer) == Next(cfg, s, step) && DeliversOnly(longer, more);
  }

  /** A step after which no new cause has been delivered. */
  lemma ReachStep(cfg: Config, s: System, step: Step, seen: set<Seq>)
    requires Reached(cfg, s, seen)
    requires step.Handle? ==>
      && step.cause in seen
      && s.durable.state == State.Triage && LastCause(s.durable.log) == Some(step.cause)
    ensures Reached(cfg, Next(cfg, s, step), seen)
  {
    ReachMore(cfg, s, step, seen, seen);
  }

  lemma {:induction false} ReachCarried(cfg: Config, s: System, os: seq<Oracle>, seen: set<Seq>)
    requires Reached(cfg, s, seen)
    ensures Reached(cfg, Carried(cfg, s, os), seen)
  {
    if os != [] {
      ReachCarried(cfg, s, os[..|os| - 1], seen);
      ReachStep(cfg, Carried(cfg, s, os[..|os| - 1]), Continue(os[|os| - 1]), seen);
    }
  }

  lemma ReachAdvance(cfg: Config, s: System, o: Oracle, seen: set<Seq>)
    requires Reached(cfg, s, seen)
    ensures Reached(cfg, Advance(cfg, s, o), seen)
    ensures Reached(cfg, Advance(cfg, Advance(cfg, s, o), o), seen)
    ensures Reached(cfg, Advance(cfg, Advance(cfg, Advance(cfg, s, o), o), o), seen)
  {
    ReachStep(cfg, s, Continue(o), seen);
    ReachStep(cfg, Advance(cfg, s, o), Continue(o), seen);
    ReachStep(cfg, Advance(cfg, Advance(cfg, s, o), o), Continue(o), seen);
  }

  lemma {:induction false} NoRecovery(log: Log, c: Seq)
    requires forall i | 0 <= i < |log| :: !IsRecovery(log[i], c)
    ensures Handled(log, c) == None && Persisted(log, c) == None
  {
    if log != [] {
      NoRecovery(log[..|log| - 1], c);
    }
  }

  // ---------------------------------------------------------------- one attempt running

  const NOTHING := Recovery.Evidence("", "", "")

  function Started1(): Attempt { Attempt(Started, NoCause, None) }

  /** The log of a first launch. */
  function FirstLog(): Log {
    [Note, Changed(Blocked, Queued, 0), Spawned(0), Changed(Queued, Running, 2)]
  }

  function Queued1(): System {
    System(Durable(Queued, 0, 0, [], [], [Note, Changed(Blocked, Queued, 0)]), Idle, false)
  }

  function Running1(): System {
    System(Durable(Running, 0, 0, [Started1()], [], FirstLog()), Idle, false)
  }

  lemma SatisfiedQueues(cfg: Config)
    ensures Next(cfg, Initial(), Satisfied) == Queued1()
  {
    assert [] + [Note] + [Changed(Blocked, Queued, 0)] == [Note, Changed(Blocked, Queued, 0)];
  }

  lemma QueuedLaunches(cfg: Config)
    ensures Next(cfg, Queued1(), LaunchQueued) == Running1()
  {
    assert Queued1().durable.log + [Spawned(0)] + [Changed(Queued, Running, 2)] == FirstLog();
    assert [] + [Started1()] == [Started1()];
  }

  lemma FirstLaunch(cfg: Config)
    ensures Reached(cfg, Running1(), {})
  {
    ReachInitial(cfg);
    ReachStep(cfg, Initial(), Satisfied, {});
    SatisfiedQueues(cfg);
    ReachStep(cfg, Queued1(), LaunchQueued, {});
    QueuedLaunches(cfg);
  }

  predicate Plain(t: Trigger) {
    t in {Recovery.Asked, Recovery.Stalled, Recovery.Exited}
  }

  /** The log of a first signal, delivered. */
  function SignalLog(t: Trigger, x: int): Log {
    FirstLog() + [Signal(t, 0, x, NOTHING)] + [Changed(Running, State.Triage, 4)]
  }

  /** A first signal of the first attempt, delivered. */
  function Signalled(t: Trigger, x: int, live: bool): System {
    var a := if t == Recovery.Exited then Attempt(Disposition.Ended, WorkerExit, None) else Started1();
    System(Durable(State.Triage, 0, 0, [a], [], SignalLog(t, x)), Entered(4, live), false)
  }

  lemma SignalFacts(t: Trigger, x: int)
    ensures |SignalLog(t, x)| == 6 && SignalLog(t, x)[4] == Signal(t, 0, x, NOTHING)
    ensures Handled(SignalLog(t, x), 4) == None && Persisted(SignalLog(t, x), 4) == None
    ensures LastCause(SignalLog(t, x)) == Some(4)
  {
    NoRecovery(SignalLog(t, x), 4);
    Append(FirstLog() + [Signal(t, 0, x, NOTHING)], Changed(Running, State.Triage, 4));
  }

  lemma Reported(cfg: Config, t: Trigger, x: int)
    requires Plain(t)
    ensures var s := Next(cfg, Running1(), Report(t, x, NOTHING, None));
      && s.durable == Signalled(t, x, false).durable.(state := Running, log := FirstLog() + [Signal(t, 0, x, NOTHING)])
      && s.pc == Idle && !s.waiting
  {
    assert !EndReported(FirstLog(), 0);
  }

  lemma FirstSignal(cfg: Config, t: Trigger, x: int, live: bool)
    requires Plain(t)
    ensures Reached(cfg, Signalled(t, x, live), {4})
  {
    FirstLaunch(cfg);
    ReachStep(cfg, Running1(), Report(t, x, NOTHING, None), {});
    Reported(cfg, t, x);
    var s1 := Next(cfg, Running1(), Report(t, x, NOTHING, None));
    NoRecovery(s1.durable.log, 4);
    ReachMore(cfg, s1, Handle(4, live), {}, {4});
    assert s1.durable.log[4] == Signal(t, 0, x, NOTHING);
  }

  // ---------------------------------------------------------------- a supervised decision

  /** Nothing short of the supervisor resolves this cause, and the answer is on the menu. */
  predicate Asks(cfg: Config, s: System, answer: Action) {
    var d := s.durable;
    && s.pc.Entered? && d.state == State.Triage && d.attempts != [] && Latest(d).signature == None
    && !CrashAccepts(cfg, d, s.pc.cause) && Refused(cfg, d, s.pc.cause)
    && Unfinished(d.interventions) == None && Persisted(d.log, s.pc.cause) == None
    && OnMenu(cfg, d, s.pc.cause, s.pc.live, answer)
  }

  function Reservation(d: Durable): Intervention
    requires d.attempts != []
  {
    Intervention(|d.attempts| - 1, false, None)
  }

  lemma Reserve(cfg: Config, s: System, o: Oracle)
    requires Asks(cfg, s, o.answer)
    ensures var d := s.durable;
      Advance(cfg, Advance(cfg, s, o), o) == System(
        MarkLatest(d, Settled).(interventions := d.interventions + [Reservation(d)]),
        Invoking(s.pc.cause, s.pc.live, |d.interventions|), s.waiting)
  {
    var s1 := Advance(cfg, s, o);
    assert s1.pc == Reserved(s.pc.cause, s.pc.live, |s.durable.interventions|);
  }

  /** The state in which the handler dispatches the supervisor's answer. */
  function AfterAnswer(s: System, answer: Action): System
    requires s.durable.attempts != [] && s.pc.Entered?
  {
    var d := s.durable;
    var x := if answer == Supervisor.Restart then RetryRequested else Settled;
    System(
      MarkLatest(d, x).(interventions := d.interventions + [Reservation(d).(ended := true)],
                        log := d.log + [Invoked(s.pc.cause), Acted(s.pc.cause, answer, |d.interventions|)]),
      Dispatching(s.pc.cause, answer, |d.log| + 1, |d.interventions|), s.waiting)
  }

  lemma MenuKept(cfg: Config, d: Durable, after: Durable, c: Seq, live: bool, a: Action)
    requires OnMenu(cfg, d, c, live, a) && after.log == d.log + [Invoked(c)] && after.retries == d.retries
    ensures OnMenu(cfg, after, c, live, a)
  {
    Append(d.log, Invoked(c));
  }

  /** The call and its answer. */
  lemma CallAnswers(cfg: Config, s: System, o: Oracle)
    requires s.pc.Invoking? && OnMenu(cfg, s.durable, s.pc.cause, s.pc.live, o.answer)
    ensures var d := s.durable;
      var (c, i) := (s.pc.cause, s.pc.intervention);
      Advance(cfg, Advance(cfg, s, o), o) == System(
        d.(log := d.log + [Invoked(c), Acted(c, o.answer, i)]), Decided(c, o.answer, |d.log| + 1, i, true), s.waiting)
  {
    var d := s.durable;
    var s1 := Advance(cfg, s, o);
    MenuKept(cfg, d, s1.durable, s.pc.cause, s.pc.live, o.answer);
    assert d.log + [Invoked(s.pc.cause)] + [Acted(s.pc.cause, o.answer, s.pc.intervention)]
      == d.log + [Invoked(s.pc.cause), Acted(s.pc.cause, o.answer, s.pc.intervention)];
  }

  /** The two updates between the answer and its dispatch. */
  lemma AnswerCloses(cfg: Config, s: System, o: Oracle)
    requires s.pc.Decided? && s.pc.isNew
    ensures var d := s.durable;
      Advance(cfg, Advance(cfg, s, o), o) == System(
        EndIntervention(MarkLatest(d, if s.pc.action == Supervisor.Restart then RetryRequested else Settled),
                        s.pc.intervention),
        Dispatching(s.pc.cause, s.pc.action, s.pc.acted, s.pc.intervention), s.waiting)
  {
    var s1 := Advance(cfg, s, o);
    assert s1.pc == Closing(s.pc.acted, s.pc.cause, s.pc.action, s.pc.intervention);
  }

  lemma CarriedTwo(cfg: Config, s: System, o: Oracle)
    ensures Carried(cfg, s, [o, o]) == Advance(cfg, Advance(cfg, s, o), o)
  {
    CarriedMore(cfg, s, [], o);
    CarriedMore(cfg, s, [o], o);
    assert [] + [o] == [o] && [o] + [o] == [o, o];
  }

  lemma Decide(cfg: Config, s: System, o: Oracle)
    requires Asks(cfg, s, o.answer)
    ensures Carried(cfg, s, [o, o] + [o, o, o, o]) == AfterAnswer(s, o.answer)
  {
    Reserve(cfg, s, o);
    CarriedFourMore(cfg, s, [o, o], o);
    CarriedTwo(cfg, s, o);
    var s2 := Carried(cfg, s, [o, o]);
    CallAnswers(cfg, s2, o);
    var s4 := Advance(cfg, Advance(cfg, s2, o), o);
    AnswerCloses(cfg, s4, o);
    MarksAgree(s.durable, o.answer);
  }

  /** Marking twice is marking once; closing the new intervention closes its row. */
  lemma MarksAgree(d: Durable, answer: Action)
    requires d.attempts != []
    ensures var x := if answer == Supervisor.Restart then RetryRequested else Settled;
      && MarkLatest(MarkLatest(d, Settled), x).attempts == MarkLatest(d, x).attempts
      && (d.interventions + [Reservation(d)])[|d.interventions| := Reservation(d).(ended := true)]
         == d.interventions + [Reservation(d).(ended := true)]
  {
  }

  // ---------------------------------------------------------------- a worker exit that is lost

  /** The exit of a running task is dropped if and only if its attempt already reported an exit or a stall. */
  lemma ExitLostIff(cfg: Config, s: System, x: int, e: Recovery.Evidence, g: Option<nat>)
    requires s.durable.state == Running && s.durable.attempts != []
    ensures Next(cfg, s, Report(Recovery.Exited, x, e, g)).durable == s.durable
            <==> EndReported(s.durable.log, s.durable.current)
  {
    if !EndReported(s.durable.log, s.durable.current) {
      assert |Next(cfg, s, Report(Recovery.Exited, x, e, g)).durable.log| > |s.durable.log|;
    }
  }

  /** A stall is dropped under the same condition, unless the worker was told to be waited for. */
  lemma StallLostIff(cfg: Config, s: System, x: int, e: Recovery.Evidence, g: Option<nat>)
    requires s.durable.state == Running && s.durable.attempts != []
    ensures var d := s.durable;
      var after := Next(cfg, s, Report(Recovery.Stalled, x, e, g));
      if (exists i | 0 <= i < |d.log| :: d.log[i].Signal? && d.log[i].attempt == d.current
                                         && d.log[i].trigger in {Recovery.Exited, Recovery.Stalled}) && !s.waiting
      then after == s
      else after == s.(durable := d.(log := d.log + [Signal(Recovery.Stalled, d.current, x, e)]),
                       waiting := if d.current < |d.attempts| then false else s.waiting)
  {
    var d := s.durable;
    if d.current < |d.attempts| {
      assert d.attempts[d.current := d.attempts[d.current]] == d.attempts;
    }
  }

  /** Running, with every further exit or stall report dropped. */
  predicate Stranded(s: System) {
    s.pc == Idle && s.durable.state == Running && EndReported(s.durable.log, s.durable.current) && !s.waiting
  }

  /** What may still be reported of a stranded task: exits, stalls and events triage does not read. */
  predicate Idles(step: Step) {
    step.Remark? || (step.Report? && step.trigger in {Recovery.Exited, Recovery.Stalled})
  }

  function After(cfg: Config, s: System, steps: seq<Step>): System {
    if steps == [] then s else Next(cfg, After(cfg, s, steps[..|steps| - 1]), steps[|steps| - 1])
  }

  /** However many of them follow, the task stays stranded and nothing but its log changes. */
  lemma {:induction false} StrandedForever(cfg: Config, s: System, steps: seq<Step>)
    requires Stranded(s) && forall i | 0 <= i < |steps| :: Idles(steps[i])
    ensures var t := After(cfg, s, steps);
      && Stranded(t) && t == s.(durable := s.durable.(log := t.durable.log)) && s.durable.log <= t.durable.log
      && forall i | |s.durable.log| <= i < |t.durable.log| :: t.durable.log[i] == Note
  {
    if steps != [] {
      StrandedForever(cfg, s, steps[..|steps| - 1]);
      StrandedStep(cfg, After(cfg, s, steps[..|steps| - 1]), steps[|steps| - 1]);
    }
  }

  lemma StrandedStep(cfg: Config, s: System, step: Step)
    requires Stranded(s) && Idles(step)
    ensures var t := Next(cfg, s, step);
      && Stranded(t)
      && t == if step.Remark? then s.(durable := s.durable.(log := s.durable.log + [Note])) else s
  {
    if step.Remark? {
      var i :| 0 <= i < |s.durable.log| && s.durable.log[i].Signal?
               && s.durable.log[i].trigger in {Recovery.Exited, Recovery.Stalled}
               && s.durable.log[i].attempt == s.durable.current;
      assert Next(cfg, s, step).durable.log[i] == s.durable.log[i];
    }
  }

  lemma WaitIsAsked(cfg: Config)
    requires cfg.maxRetries >= 1
    ensures Asks(cfg, Signalled(Recovery.Stalled, 0, true), Supervisor.Wait)
  {
    SignalFacts(Recovery.Stalled, 0);
  }

  lemma WaitRuns(cfg: Config, o: Oracle)
    ensures var s := Advance(cfg, AfterAnswer(Signalled(Recovery.Stalled, 0, true), Supervisor.Wait), o);
      && s.pc == Idle && s.durable.state == Running && s.durable.attempts != []
      && EndReported(s.durable.log, s.durable.current)
  {
    SignalFacts(Recovery.Stalled, 0);
    var s := Advance(cfg, AfterAnswer(Signalled(Recovery.Stalled, 0, true), Supervisor.Wait), o);
    assert s.durable.log[4] == Signal(Recovery.Stalled, 0, 0, NOTHING);
  }

  lemma Waits(cfg: Config)
    requires cfg.maxRetries >= 1
    ensures exists s :: Reached(cfg, s, {4}) && s.pc == Idle && s.durable.state == Running && s.durable.attempts != []
                        && EndReported(s.durable.log, s.durable.current)
  {
    var s := Signalled(Recovery.Stalled, 0, true);
    var o := Oracle(Supervisor.Wait, false);
    FirstSignal(cfg, Recovery.Stalled, 0, true);
    WaitIsAsked(cfg);
    Decide(cfg, s, o);
    ReachCarried(cfg, s, [o, o] + [o, o, o, o], {4});
    ReachStep(cfg, AfterAnswer(s, Supervisor.Wait), Continue(o), {4});
    WaitRuns(cfg, o);
  }

  /** A stall answered with wait, then the worker's exit: the task stays running and no report moves it. */
  lemma WaitThenExitStrands(cfg: Config)
    requires cfg.maxRetries >= 1
    ensures exists s :: Reachable(cfg, s) && Stranded(s)
  {
    Waits(cfg);
    var s :| Reached(cfg, s, {4}) && s.pc == Idle && s.durable.state == Running && s.durable.attempts != []
             && EndReported(s.durable.log, s.durable.current);
    var exit := Report(Recovery.Exited, 0, NOTHING, None);
    ReachStep(cfg, s, exit, {4});
    ReachedIsReachable(cfg, Next(cfg, s, exit), {4});
    LostExitStrands(cfg, s);
  }

  lemma LostExitStrands(cfg: Config, s: System)
    requires s.pc == Idle && s.durable.state == Running && EndReported(s.durable.log, s.durable.current)
    ensures Stranded(Next(cfg, s, Report(Recovery.Exited, 0, NOTHING, None)))
  {
  }

  // ---------------------------------------------------------------- a decision carried out twice

  /** The launch of a restart, up to the link between the intervention and its new child. */
  lemma RestartLinks(cfg: Config, s: System, o: Oracle)
    requires s.pc.Dispatching? && s.pc.action == Supervisor.Restart && s.pc.intervention < |s.durable.interventions|
    requires s.durable.attempts != [] && Reusable(s.durable, Supervised(s.pc.intervention)) == None
    ensures var d := s.durable;
      var s3 := Advance(cfg, Advance(cfg, Advance(cfg, s, o), o), o);
      && s3.durable == Linked(d.(attempts := d.attempts + [Attempt(Created, NoCause, None)]),
                              Supervised(s.pc.intervention), |d.attempts|)
      && s3.pc == Launched(s.pc.cause, d.retries + 1, Supervised(s.pc.intervention), |d.attempts|)
  {
    var s1 := Advance(cfg, s, o);
    assert s1.pc == Launching(s.pc.cause, s.durable.retries + 1, Supervised(s.pc.intervention));
    var s2 := Advance(cfg, s1, o);
    assert s2.pc.Linking?;
  }

  /** A log whose only recovery of c is the decision at its end. */
  lemma DecidedOnce(log: Log, c: Seq, a: Action, i: nat)
    requires forall k | 0 <= k < |log| :: !IsRecovery(log[k], c)
    ensures var l := log + [Acted(c, a, i)];
      Handled(l, c).Some? && Handled(l, c).value.Acted? && Persisted(l, c) == Some(|log|) && Decisions(l, c) == 1
  {
    NoRecovery(log, c);
    HandledMeans(log, c);
    Append(log, Acted(c, a, i));
    HandledDecision(log + [Acted(c, a, i)], c);
  }

  /** One worker question, delivered. */
  function Asked1(): System {
    Signalled(Recovery.Asked, 0, false)
  }

  /** The log once the question was answered with restart. */
  function RestartLog(): Log {
    SignalLog(Recovery.Asked, 0) + [Invoked(4)] + [Acted(4, Supervisor.Restart, 0)]
  }

  /** The question answered with restart, at the dispatch. */
  function Restarting(): System {
    System(
      Durable(State.Triage, 0, 0, [Attempt(RetryRequested, NoCause, None)], [Intervention(0, true, None)],
              RestartLog()),
      Dispatching(4, Supervisor.Restart, 7, 0), false)
  }

  lemma QuestionIsAsked(cfg: Config, answer: Action)
    requires answer == Supervisor.EscalateHuman || (cfg.maxRetries >= 1 && answer == Supervisor.Restart)
    ensures Asks(cfg, Asked1(), answer)
  {
    SignalFacts(Recovery.Asked, 0);
  }

  lemma RestartAnswers()
    ensures AfterAnswer(Asked1(), Supervisor.Restart) == Restarting()
  {
    var log := SignalLog(Recovery.Asked, 0);
    assert log + [Invoked(4), Acted(4, Supervisor.Restart, 0)] == RestartLog();
    assert [Started1()][0 := Attempt(RetryRequested, NoCause, None)] == [Attempt(RetryRequested, NoCause, None)];
  }

  lemma AskedOnce(cfg: Config)
    requires cfg.maxRetries >= 1
    ensures Reached(cfg, Restarting(), {4})
  {
    var o := Oracle(Supervisor.Restart, false);
    FirstSignal(cfg, Recovery.Asked, 0, false);
    QuestionIsAsked(cfg, Supervisor.Restart);
    Decide(cfg, Asked1(), o);
    ReachCarried(cfg, Asked1(), [o, o] + [o, o, o, o], {4});
    RestartAnswers();
  }

  lemma LastCauseAt(log: Log, e: Event, a: Event, b: Event)
    requires e.Changed? && !a.Changed? && !b.Changed?
    ensures LastCause(log + [e]) == Some(e.cause)
    ensures LastCause(log + [e] + [a]) == Some(e.cause)
    ensures LastCause(log + [e] + [a] + [b]) == Some(e.cause)
  {
    Append(log, e);
    Append(log + [e], a);
    Append(log + [e] + [a], b);
  }

  lemma RestartLogFacts()
    ensures RestartLog()[4] == Signal(Recovery.Asked, 0, 0, NOTHING) && |RestartLog()| == 8
    ensures RestartLog()[7] == Acted(4, Supervisor.Restart, 0)
    ensures LastCause(RestartLog()) == Some(4) && Decisions(RestartLog(), 4) == 1
    ensures Handled(RestartLog(), 4).Some? && Handled(RestartLog(), 4).value.Acted?
    ensures Persisted(RestartLog(), 4) == Some(7)
  {
    LastCauseAt(FirstLog() + [Signal(Recovery.Asked, 0, 0, NOTHING)],
                Changed(Running, State.Triage, 4), Invoked(4), Acted(4, Supervisor.Restart, 0));
    DecidedOnce(SignalLog(Recovery.Asked, 0) + [Invoked(4)], 4, Supervisor.Restart, 0);
  }

  /** Between the two dispatches: the child of the first is linked, the handler is gone. */
  function Orphaned(): System {
    System(
      Durable(State.Triage, 0, 0, [Attempt(RetryRequested, NoCause, None), Attempt(Created, NoCause, None)],
              [Intervention(0, true, Some(1))], RestartLog()), Idle, false)
  }

  /** The second dispatch of the same decision. */
  function Redispatching(): System {
    System(
      Durable(State.Triage, 0, 0, [Attempt(RetryRequested, NoCause, None), Attempt(RetryRequested, NoCause, None)],
              [Intervention(0, true, Some(1))], RestartLog()), Dispatching(4, Supervisor.Restart, 7, 0), false)
  }

  lemma RestartOrphans(cfg: Config)
    requires cfg.maxRetries >= 1
    ensures Reached(cfg, Orphaned(), {4})
  {
    var o := Oracle(Supervisor.Restart, false);
    AskedOnce(cfg);
    RestartLinks(cfg, Restarting(), o);
    ReachAdvance(cfg, Restarting(), o, {4});
    var linked := Advance(cfg, Advance(cfg, Advance(cfg, Restarting(), o), o), o);
    assert linked.durable == Orphaned().durable;
    ReachStep(cfg, linked, Crash, {4});
  }

  lemma OrphanIsRedispatched(cfg: Config, o: Oracle)
    requires cfg.maxRetries >= 1
    ensures Advance(cfg, Advance(cfg, Deliver(Orphaned(), 4, false), o), o) == Redispatching()
  {
    RestartLogFacts();
    var s1 := Deliver(Orphaned(), 4, false);
    assert s1 == Orphaned().(pc := Entered(4, false));
    var s2 := Advance(cfg, s1, o);
    assert s2 == Orphaned().(pc := Decided(4, Supervisor.Restart, 7, 0, false));
  }

  lemma RedispatchIsReached(cfg: Config, o: Oracle)
    requires cfg.maxRetries >= 1
    ensures Reached(cfg, Redispatching(), {4})
  {
    RestartLogFacts();
    RestartOrphans(cfg);
    ReachStep(cfg, Orphaned(), Handle(4, false), {4});
    ReachAdvance(cfg, Deliver(Orphaned(), 4, false), o, {4});
    OrphanIsRedispatched(cfg, o);
  }

  lemma RedispatchMakesChild(cfg: Config, o: Oracle)
    ensures var t := Advance(cfg, Advance(cfg, Advance(cfg, Redispatching(), o), o), o);
      |t.durable.attempts| == 3 && t.durable.log == RestartLog() && t.durable.retries == 0
  {
    RestartLinks(cfg, Redispatching(), o);
  }

  /**
   A crash after a restart created its child: dispatching the persisted decision again creates a
   second child, although one decision is in the log.
   */
  lemma CrashMakesSecondChild(cfg: Config)
    requires cfg.maxRetries >= 1
    ensures exists s :: Reachable(cfg, s) && |s.durable.attempts| == 3 && Decisions(s.durable.log, 4) == 1
                        && s.durable.retries == 0
  {
    var o := Oracle(Supervisor.Restart, false);
    RedispatchIsReached(cfg, o);
    ReachAdvance(cfg, Redispatching(), o, {4});
    var t := Advance(cfg, Advance(cfg, Advance(cfg, Redispatching(), o), o), o);
    ReachedIsReachable(cfg, t, {4});
    RedispatchMakesChild(cfg, o);
    RestartLogFacts();
  }

  // ---------------------------------------------------------------- one cause, two supervisor calls

  /** From the reservation to the recorded call. */
  lemma CallIsRecorded(cfg: Config, s: System, o: Oracle)
    requires Asks(cfg, s, o.answer)
    ensures var d := s.durable;
      Advance(cfg, Advance(cfg, Advance(cfg, s, o), o), o) == System(
        MarkLatest(d, Settled).(interventions := d.interventions + [Reservation(d)],
                                log := d.log + [Invoked(s.pc.cause)]),
        Asking(s.pc.cause, s.pc.live, |d.interventions|), s.waiting)
  {
    Reserve(cfg, s, o);
  }

  /** A crash after the interrupted intervention is closed, before the task leaves triage. */
  lemma Interrupts(cfg: Config, s: System, o: Oracle, c: Seq)
    requires s.pc == Entered(c, false) && s.durable.attempts != [] && Latest(s.durable).signature == None
    requires !CrashAccepts(cfg, s.durable, c) && Refused(cfg, s.durable, c)
    requires |s.durable.interventions| == 1 && !s.durable.interventions[0].ended
    ensures var s2 := Advance(cfg, Advance(cfg, s, o), o);
      && s2.durable == s.durable.(log := s.durable.log + [PolicyApplied(false)],
                                  interventions := [s.durable.interventions[0].(ended := true)])
      && s2.pc == Marking(|s.durable.log|)
  {
    var s1 := Advance(cfg, s, o);
    assert s1.pc == Interrupted(|s.durable.log|, 0);
    assert Advance(cfg, s1, o).durable.interventions == [s.durable.interventions[0].(ended := true)];
  }

  function CalledLog(): Log {
    SignalLog(Recovery.Asked, 0) + [Invoked(4)]
  }

  lemma CalledLogFacts()
    ensures CalledLog()[4] == Signal(Recovery.Asked, 0, 0, NOTHING) && |CalledLog()| == 7
    ensures LastCause(CalledLog()) == Some(4) && Handled(CalledLog(), 4) == None && Calls(CalledLog(), 4) == 1
  {
    LastCauseAt(FirstLog() + [Signal(Recovery.Asked, 0, 0, NOTHING)],
                Changed(Running, State.Triage, 4), Invoked(4), PolicyApplied(false));
    NoRecovery(CalledLog(), 4);
    CallsAppend(SignalLog(Recovery.Asked, 0), Invoked(4));
    NoCalls(SignalLog(Recovery.Asked, 0), 4);
  }

  lemma ClosedLogFacts()
    ensures var log := CalledLog() + [PolicyApplied(false)];
      && log[4] == Signal(Recovery.Asked, 0, 0, NOTHING) && LastCause(log) == Some(4)
      && Handled(log, 4) == None && Persisted(log, 4) == None && Calls(log + [Invoked(4)], 4) == 2
  {
    CalledLogFacts();
    var log := CalledLog() + [PolicyApplied(false)];
    Append(CalledLog(), PolicyApplied(false));
    NoRecovery(log, 4);
    CallsAppend(CalledLog(), PolicyApplied(false));
    CallsAppend(log, Invoked(4));
  }

  /** The first call, its answer lost in a crash. */
  function CallLost(): System {
    System(Durable(State.Triage, 0, 0, [Attempt(Settled, NoCause, None)], [Intervention(0, false, None)], CalledLog()),
           Idle, false)
  }

  /** The intervention closed, and a second crash before the task left triage. */
  function CallClosed(): System {
    System(Durable(State.Triage, 0, 0, [Attempt(Settled, NoCause, None)], [Intervention(0, true, None)],
                   CalledLog() + [PolicyApplied(false)]), Idle, false)
  }

  lemma CallIsLost(cfg: Config)
    ensures Reached(cfg, CallLost(), {4})
  {
    var o := Oracle(Supervisor.EscalateHuman, false);
    FirstSignal(cfg, Recovery.Asked, 0, false);
    QuestionIsAsked(cfg, Supervisor.EscalateHuman);
    CallIsRecorded(cfg, Asked1(), o);
    ReachAdvance(cfg, Asked1(), o, {4});
    var asking := Advance(cfg, Advance(cfg, Advance(cfg, Asked1(), o), o), o);
    assert asking.durable == CallLost().durable;
    ReachStep(cfg, asking, Crash, {4});
  }

  lemma LostIsInterrupted(cfg: Config, o: Oracle)
    ensures Deliver(CallLost(), 4, false) == CallLost().(pc := Entered(4, false))
    ensures Advance(cfg, Advance(cfg, CallLost().(pc := Entered(4, false)), o), o).durable == CallClosed().durable
  {
    CalledLogFacts();
    Interrupts(cfg, CallLost().(pc := Entered(4, false)), o, 4);
  }

  lemma CallIsClosed(cfg: Config)
    ensures Reached(cfg, CallClosed(), {4})
  {
    var o := Oracle(Supervisor.EscalateHuman, false);
    CallIsLost(cfg);
    CalledLogFacts();
    ReachStep(cfg, CallLost(), Handle(4, false), {4});
    LostIsInterrupted(cfg, o);
    var s1 := Deliver(CallLost(), 4, false);
    ReachAdvance(cfg, s1, o, {4});
    ReachStep(cfg, Advance(cfg, Advance(cfg, s1, o), o), Crash, {4});
  }

  lemma ClosedIsAskedAgain(cfg: Config)
    ensures Deliver(CallClosed(), 4, false) == CallClosed().(pc := Entered(4, false))
    ensures Asks(cfg, CallClosed().(pc := Entered(4, false)), Supervisor.EscalateHuman)
  {
    ClosedLogFacts();
  }

  /** Two crashes around one triage: the supervisor is called twice for the same cause. */
  lemma CrashCallsSupervisorTwice(cfg: Config)
    ensures exists s :: Reachable(cfg, s) && Calls(s.durable.log, 4) == 2
  {
    var o := Oracle(Supervisor.EscalateHuman, false);
    CallIsClosed(cfg);
    ClosedLogFacts();
    ReachStep(cfg, CallClosed(), Handle(4, false), {4});
    ClosedIsAskedAgain(cfg);
    var s1 := Deliver(CallClosed(), 4, false);
    CallIsRecorded(cfg, s1, o);
    ReachAdvance(cfg, s1, o, {4});
    var s := Advance(cfg, Advance(cfg, Advance(cfg, s1, o), o), o);
    ReachedIsReachable(cfg, s, {4});
    assert s.durable.log == CalledLog() + [PolicyApplied(false)] + [Invoked(4)];
  }

  /** Cause 4 was called for, was never decided, and its intervention is closed. */
  ghost predicate Undecided(d: Durable) {
    && CalledLog() <= d.log && (forall i | 0 <= i < |d.log| :: !IsRecovery(d.log[i], 4))
    && d.attempts != [] && Latest(d).signature == None && d.interventions == [Intervention(0, true, None)]
  }

  lemma EscalatesUndecided(cfg: Config, s: System, o: Oracle)
    requires s.pc.Marking? && s.durable.state == State.Triage && Undecided(s.durable)
    ensures var t := Advance(cfg, Advance(cfg, s, o), o);
      t.pc == Idle && t.durable.state == NeedsHuman && Undecided(t.durable)
  {
    var s1 := Advance(cfg, s, o);
    assert s1.pc.Escalating? && Undecided(s1.durable) && s1.durable.state == State.Triage;
  }

  lemma AnswerLaunches(cfg: Config, s: System)
    requires s.pc == Idle && s.durable.state == NeedsHuman && Undecided(s.durable)
    ensures var t := Next(cfg, Next(cfg, s, Answer), LaunchQueued);
      t.pc == Idle && t.durable.state == Running && Undecided(t.durable)
  {
    var s1 := Next(cfg, s, Answer);
    assert s1.durable.state == Queued && Undecided(s1.durable);
  }

  lemma {:induction false} CallsGrow(log: Log, more: Log, c: Seq)
    requires log <= more
    ensures Calls(log, c) <= Calls(more, c)
  {
    if |log| < |more| {
      CallsGrow(log, more[..|more| - 1], c);
    } else {
      assert log == more;
    }
  }

  lemma UndecidedCallsAgain(cfg: Config, s: System)
    requires s.pc == Idle && s.durable.state == Running && Undecided(s.durable)
    ensures CallsAgain(cfg, s, Handle(4, false))
  {
    var d := s.durable;
    CalledLogFacts();
    CallsGrow(CalledLog(), d.log, 4);
    NoRecovery(d.log, 4);
    var e := Deliver(s, 4, false);
    assert d.log[4] == CalledLog()[4];
    assert e.pc == Entered(4, false) && e.durable.log == d.log + [Changed(Running, State.Triage, 4)];
    NoRecovery(e.durable.log, 4);
    assert GoesToSupervisor(cfg, e.durable, 4, false);
  }

  /** The lost call after its restart: the intervention closed, the task about to be escalated. */
  function Closing1(cfg: Config, o: Oracle): System {
    Advance(cfg, Advance(cfg, Deliver(CallLost(), 4, false), o), o)
  }

  lemma ClosingIsReached(cfg: Config, o: Oracle)
    ensures Reached(cfg, Closing1(cfg, o), {4})
  {
    CallIsLost(cfg);
    CalledLogFacts();
    ReachStep(cfg, CallLost(), Handle(4, false), {4});
    ReachAdvance(cfg, Deliver(CallLost(), 4, false), o, {4});
  }

  lemma ClosingIsUndecided(cfg: Config, o: Oracle)
    ensures var s := Closing1(cfg, o);
      s.pc.Marking? && s.durable.state == State.Triage && Undecided(s.durable)
  {
    CalledLogFacts();
    LostIsInterrupted(cfg, o);
    Interrupts(cfg, CallLost().(pc := Entered(4, false)), o, 4);
  }

  /** The second way: escalated to a person, answered, launched again, and then a duplicate of the old question. */
  lemma DuplicateAfterAnswerCallsAgain(cfg: Config)
    ensures exists s :: Reachable(cfg, s) && s.durable.state == Running && CallsAgain(cfg, s, Handle(4, false))
  {
    var o := Oracle(Supervisor.EscalateHuman, false);
    ClosingIsReached(cfg, o);
    ClosingIsUndecided(cfg, o);
    AnsweredCallsAgain(cfg, Closing1(cfg, o), o);
  }

  lemma AnsweredCallsAgain(cfg: Config, s: System, o: Oracle)
    requires Reached(cfg, s, {4}) && s.pc.Marking? && s.durable.state == State.Triage && Undecided(s.durable)
    ensures var t := Next(cfg, Next(cfg, Advance(cfg, Advance(cfg, s, o), o), Answer), LaunchQueued);
      Reachable(cfg, t) && t.durable.state == Running && CallsAgain(cfg, t, Handle(4, false))
  {
    ReachAdvance(cfg, s, o, {4});
    var human := Advance(cfg, Advance(cfg, s, o), o);
    ReachStep(cfg, human, Answer, {4});
    ReachStep(cfg, Next(cfg, human, Answer), LaunchQueued, {4});
    ReachedIsReachable(cfg, Next(cfg, Next(cfg, human, Answer), LaunchQueued), {4});
    EscalatesUndecided(cfg, s, o);
    AnswerLaunches(cfg, human);
    UndecidedCallsAgain(cfg, Next(cfg, Next(cfg, human, Answer), LaunchQueued));
  }

  // ---------------------------------------------------------------- a sharp delivery

  /** The log of a crash whose deterministic retry was itself cut short. */
  function CrashLog(): Log {
    SignalLog(Recovery.Exited, 1) + [PolicyApplied(false)]
  }

  lemma CrashLogFacts()
    ensures CrashLog()[4] == Signal(Recovery.Exited, 0, 1, NOTHING) && |CrashLog()| == 7
    ensures LastCause(CrashLog()) == Some(4) && Handled(CrashLog(), 4) == None && Persisted(CrashLog(), 4) == None
  {
    SignalFacts(Recovery.Exited, 1);
    Append(SignalLog(Recovery.Exited, 1), PolicyApplied(false));
    NoRecovery(CrashLog(), 4);
  }

  /** The first crash, its retry interrupted once the child exists. */
  function RetryLost(): System {
    System(Durable(State.Triage, 0, 0, [Attempt(RetryRequested, WorkerExit, None), Attempt(Created, NoCause, None)], [],
                   CrashLog()), Idle, false)
  }

  lemma RetryMakesChild(cfg: Config, o: Oracle)
    requires cfg.crashRecovery && cfg.maxRetries >= 2
    ensures Advance(cfg, Advance(cfg, Advance(cfg, Signalled(Recovery.Exited, 1, false), o), o), o).durable
            == RetryLost().durable
  {
    SignalFacts(Recovery.Exited, 1);
    var s1 := Advance(cfg, Signalled(Recovery.Exited, 1, false), o);
    assert s1.pc == Retrying(4, false);
    var s2 := Advance(cfg, s1, o);
    assert s2.pc == Launching(4, 1, Deterministic);
    assert s2.durable.attempts == [Attempt(RetryRequested, WorkerExit, None)];
    assert s2.durable.attempts + [Attempt(Created, NoCause, None)] == RetryLost().durable.attempts;
  }

  lemma RetryIsLost(cfg: Config)
    requires cfg.crashRecovery && cfg.maxRetries >= 2
    ensures Reached(cfg, RetryLost(), {4})
  {
    var o := Oracle(Supervisor.Restart, false);
    FirstSignal(cfg, Recovery.Exited, 1, false);
    ReachAdvance(cfg, Signalled(Recovery.Exited, 1, false), o, {4});
    RetryMakesChild(cfg, o);
    ReachStep(cfg, Advance(cfg, Advance(cfg, Advance(cfg, Signalled(Recovery.Exited, 1, false), o), o), o), Crash, {4});
  }

  /** The redelivered crash now goes to the supervisor, which restarts the task. */
  function CrashRestarting(): System {
    System(
      Durable(State.Triage, 0, 0, [Attempt(RetryRequested, WorkerExit, None), Attempt(RetryRequested, NoCause, None)],
              [Intervention(1, true, None)], SecondCrashLog()), Dispatching(4, Supervisor.Restart, 8, 0), false)
  }

  function SecondCrashLog(): Log {
    CrashLog() + [Invoked(4)] + [Acted(4, Supervisor.Restart, 0)]
  }

  lemma LostRetryIsAsked(cfg: Config)
    requires cfg.maxRetries >= 1
    ensures Deliver(RetryLost(), 4, false) == RetryLost().(pc := Entered(4, false))
    ensures Asks(cfg, RetryLost().(pc := Entered(4, false)), Supervisor.Restart)
    ensures AfterAnswer(RetryLost().(pc := Entered(4, false)), Supervisor.Restart) == CrashRestarting()
  {
    CrashLogFacts();
    assert CrashLog() + [Invoked(4), Acted(4, Supervisor.Restart, 0)] == SecondCrashLog();
  }

  lemma SupervisedRetry(cfg: Config)
    requires cfg.crashRecovery && cfg.maxRetries >= 2
    ensures Reached(cfg, CrashRestarting(), {4})
  {
    var o := Oracle(Supervisor.Restart, false);
    RetryIsLost(cfg);
    CrashLogFacts();
    LostRetryIsAsked(cfg);
    ReachStep(cfg, RetryLost(), Handle(4, false), {4});
    var s1 := RetryLost().(pc := Entered(4, false));
    Decide(cfg, s1, o);
    ReachCarried(cfg, s1, [o, o] + [o, o, o, o], {4});
  }

  predicate Relaunched(d: Durable, t: System) {
    && t.pc == Idle && t.durable.state == Running && t.durable.retries == d.retries + 1
    && t.durable.attempts == d.attempts + [Started1()] && t.durable.current == |d.attempts|
    && t.durable.log == d.log + [Spawned(|d.attempts|), Changed(State.Triage, Running, |d.log|)]
  }

  /** A launched child, from its mark to the running worker. */
  lemma LaunchRuns(cfg: Config, d: Durable, s: System, o: Oracle)
    requires s.pc.Launched? && s.pc.how.Supervised? && s.pc.attempt == |d.attempts| && s.pc.retries == d.retries + 1
    requires s.durable.state == State.Triage && s.durable.log == d.log
    requires s.durable.attempts == d.attempts + [Attempt(Created, NoCause, None)]
    ensures Relaunched(d, Advance(cfg, Advance(cfg, Advance(cfg, s, o), o), o))
  {
    var s1 := Advance(cfg, s, o);
    assert s1.durable.attempts == d.attempts + [Started1()];
    var s2 := Advance(cfg, s1, o);
    assert s2.pc.Starting? && s2.durable.log == d.log + [Spawned(|d.attempts|)];
  }

  /** A restart from its dispatch to the running worker. */
  lemma RestartRuns(cfg: Config, s: System, o: Oracle)
    requires Reached(cfg, s, {4}) && s.durable.state == State.Triage
    requires s.pc.Dispatching? && s.pc.action == Supervisor.Restart && s.pc.intervention < |s.durable.interventions|
    requires s.durable.attempts != [] && Reusable(s.durable, Supervised(s.pc.intervention)) == None
    ensures exists t :: Reached(cfg, t, {4}) && Relaunched(s.durable, t)
  {
    RestartLinks(cfg, s, o);
    ReachAdvance(cfg, s, o, {4});
    var s3 := Advance(cfg, Advance(cfg, Advance(cfg, s, o), o), o);
    LaunchRuns(cfg, s.durable, s3, o);
    ReachAdvance(cfg, s3, o, {4});
  }

  /** In triage with a crashed latest attempt, nobody handling it. */
  predicate CrashedAgain(d: Durable, t: System) {
    && t.pc == Idle && t.durable.state == State.Triage && t.durable.retries == d.retries + 1
    && t.durable.attempts != [] && Latest(t.durable).failure == WorkerExit && d.log <= t.durable.log
  }

  lemma CrashReports(cfg: Config, d: Durable, s: System)
    requires Relaunched(d, s)
    requires forall i | 0 <= i < |d.log| :: d.log[i].Signal? ==> d.log[i].attempt < |d.attempts|
    ensures var t := Next(cfg, s, Report(Recovery.Exited, 1, NOTHING, None));
      && t.pc == Idle && t.durable.state == Running && t.durable.retries == d.retries + 1
      && t.durable.attempts != [] && Latest(t.durable).failure == WorkerExit
      && t.durable.log == s.durable.log + [Signal(Recovery.Exited, |d.attempts|, 1, NOTHING)]
  {
    assert !EndReported(s.durable.log, s.durable.current);
  }

  /** The delivery of the second crash, before its first write. */
  lemma CrashIsDelivered(d: Durable, s: System, n: Seq)
    requires n == |d.log| + 2 && s.pc == Idle && s.durable.state == Running && s.durable.retries == d.retries + 1
    requires s.durable.attempts != [] && Latest(s.durable).failure == WorkerExit
    requires d.log <= s.durable.log && n < |s.durable.log| && s.durable.log[n].Signal?
    requires Handled(s.durable.log, n).None?
    ensures var t := Deliver(s, n, false);
      t.pc == Entered(n, false) && CrashedAgain(d, t.(pc := Idle))
  {
  }

  /** The new worker crashes too, and its triage is aborted before its first write. */
  lemma CrashAgain(cfg: Config, d: Durable, s: System)
    requires Reached(cfg, s, {4}) && Relaunched(d, s) && |d.log| > 2
    requires forall i | 0 <= i < |d.log| :: d.log[i].Signal? ==> d.log[i].attempt < |d.attempts|
    requires forall i | 0 <= i < |d.log| :: !IsRecovery(d.log[i], |d.log| + 2)
    ensures exists t :: Reachable(cfg, t) && CrashedAgain(d, t)
  {
    var n := |d.log| + 2;
    var exit := Report(Recovery.Exited, 1, NOTHING, None);
    var s1 := Next(cfg, s, exit);
    CrashReports(cfg, d, s);
    NoRecovery(s1.durable.log, n);
    CrashIsDelivered(d, s1, n);
    CrashIsReached(cfg, s, n);
  }

  lemma CrashIsReached(cfg: Config, s: System, n: Seq)
    requires Reached(cfg, s, {4}) && n != 4
    ensures var s1 := Next(cfg, s, Report(Recovery.Exited, 1, NOTHING, None));
      Reachable(cfg, Deliver(s1, n, false).(pc := Idle))
  {
    var exit := Report(Recovery.Exited, 1, NOTHING, None);
    var s1 := Next(cfg, s, exit);
    ReachStep(cfg, s, exit, {4});
    ReachMore(cfg, s1, Handle(n, false), {4}, {4, n});
    var s2 := Next(cfg, s1, Handle(n, false));
    ReachStep(cfg, s2, Abort, {4, n});
    ReachedIsReachable(cfg, Next(cfg, s2, Abort), {4, n});
  }

  lemma {:induction false} DecisionsGrow(log: Log, more: Log, c: Seq)
    requires log <= more
    ensures Decisions(log, c) <= Decisions(more, c)
  {
    if |log| < |more| {
      DecisionsGrow(log, more[..|more| - 1], c);
    } else {
      assert log == more;
    }
  }

  lemma SecondCrashLogFacts(more: Log)
    requires SecondCrashLog() <= more
    ensures |SecondCrashLog()| == 9 && 9 <= |more| && more[4] == Signal(Recovery.Exited, 0, 1, NOTHING)
    ensures Decisions(more, 4) > 0
  {
    DecidedOnce(CrashLog() + [Invoked(4)], 4, Supervisor.Restart, 0);
    DecisionsGrow(SecondCrashLog(), more, 4);
    assert SecondCrashLog()[4] == Signal(Recovery.Exited, 0, 1, NOTHING);
  }

  lemma SecondCrashLogEvents()
    ensures forall i | 0 <= i < |SecondCrashLog()| :: SecondCrashLog()[i].Signal? ==> SecondCrashLog()[i].attempt == 0
    ensures forall i | 0 <= i < |SecondCrashLog()| :: !IsRecovery(SecondCrashLog()[i], 11)
  {
  }

  /** Sharp deliveries can be reached, in every configuration with the crash path and two retries. */
  lemma SharpIsReachable(cfg: Config)
    requires cfg.crashRecovery && cfg.maxRetries >= 2
    ensures exists s :: Reachable(cfg, s) && Sharp(cfg, s, Handle(4, false))
  {
    var s := CrashRestarting();
    SupervisedRetry(cfg);
    RestartRuns(cfg, s, Oracle(Supervisor.Restart, false));
    var t :| Reached(cfg, t, {4}) && Relaunched(s.durable, t);
    SecondCrashLogFacts(SecondCrashLog());
    SecondCrashLogEvents();
    CrashAgain(cfg, s.durable, t);
    var u :| Reachable(cfg, u) && CrashedAgain(s.durable, u);
    SecondCrashLogFacts(u.durable.log);
    assert Sharp(cfg, u, Handle(4, false));
  }

  /**
   So the handler, given an arbitrary duplicate of a decided cause, can recover that cause twice:
   orderly deliveries are needed.
   */
  lemma TwoRecoveriesOfOneCause(cfg: Config)
    requires cfg.crashRecovery && cfg.maxRetries >= 2
    ensures exists steps, os :: Sited(cfg, steps) && SpendsTwice(cfg, Deliver(Run(cfg, steps), 4, false), os, 4)
  {
    SharpIsReachable(cfg);
    var s :| Reachable(cfg, s) && Sharp(cfg, s, Handle(4, false));
    var steps :| Sited(cfg, steps) && Run(cfg, steps) == s;
    SitedRunsAreOrderly(cfg, steps);
    OrderlyRunsAreSpared(cfg, steps);
    SecondRecoveryIffSharp(cfg, steps, 4, false);
  }
}
