/**
 Child attempts over every run. The branch of _launch that takes up a created child again is
 never taken: by the time a launch starts, the re-dispatch has already marked that child.
 */
module TriageChildren {
  import opened Wrappers
  import opened States
  import opened Triage
  import TriageSafety

  /** Attempt a is still `created` and is the target of some intervention. */
  predicate Awaited(d: Durable, i: nat) {
    i < |d.interventions| && d.interventions[i].target.Some?
    && d.interventions[i].target.value < |d.attempts|
    && d.attempts[d.interventions[i].target.value].disposition == Created
  }

  /** The handler is past the write that takes the newest attempt out of `created`. */
  predicate Marked(pc: Pc) {
    pc.Closing? || pc.Dispatching? || pc.Launching? || pc.Spawning? || pc.Starting? || pc.Escalating?
  }

  predicate PcChildren(s: System) {
    var d := s.durable;
    && (Marked(s.pc) ==> d.attempts != [] && Latest(d).disposition != Created)
    && (s.pc.Linking? || s.pc.Launched? ==> s.pc.attempt + 1 == |d.attempts|)
  }

  /** A created child of an intervention is the newest attempt, and its task rests in triage or was cancelled. */
  ghost predicate Children(s: System) {
    && PcChildren(s)
    && (forall v :: v in s.durable.interventions && v.target.Some? ==> v.target.value < |s.durable.attempts|)
    && (forall i: nat :: Awaited(s.durable, i) ==>
        s.durable.interventions[i].target.value + 1 == |s.durable.attempts|
        && s.durable.state in {State.Triage, Cancelled})
  }

  lemma NoneAwaited(s: System, i: nat)
    requires Children(s) && s.durable.attempts != [] && Latest(s.durable).disposition != Created
    ensures !Awaited(s.durable, i)
  {
  }

  lemma NothingToReuse(s: System, how: How)
    requires Children(s) && s.durable.attempts != [] && Latest(s.durable).disposition != Created
    ensures Reusable(s.durable, how) == None
  {
    if how.Supervised? {
      NoneAwaited(s, how.intervention);
    }
  }

  lemma LaunchingPcChildren(cfg: Config, s: System, o: Oracle)
    requires TriageSafety.PcShape(s) && Children(s) && TriageSafety.Launching(s.pc)
    ensures PcChildren(Advance(cfg, s, o))
  {
    if s.pc.Launching? {
      NothingToReuse(s, s.pc.how);
    }
  }

  lemma AdvancePcChildren(cfg: Config, s: System, o: Oracle)
    requires TriageSafety.PcShape(s) && Children(s)
    ensures PcChildren(Advance(cfg, s, o))
  {
    if TriageSafety.Launching(s.pc) {
      LaunchingPcChildren(cfg, s, o);
    }
  }

  /** Outside a launch the handler neither makes nor links a child, and leaves triage only past the mark. */
  lemma DecideKeeps(cfg: Config, s: System, o: Oracle)
    requires TriageSafety.PcShape(s) && !TriageSafety.Launching(s.pc) && !s.pc.Retrying? && s.pc != Idle
    ensures var d, after := s.durable, Advance(cfg, s, o).durable;
      && |after.attempts| == |d.attempts|
      && (after.state in {State.Triage, Cancelled} || Marked(s.pc) || s.pc.Recording?)
      && (forall a | 0 <= a < |d.attempts| && after.attempts[a].disposition == Created ::
            d.attempts[a].disposition == Created)
  {
  }

  lemma DecideTargets(cfg: Config, s: System, o: Oracle)
    requires TriageSafety.PcShape(s) && !TriageSafety.Launching(s.pc) && !s.pc.Retrying? && s.pc != Idle
    ensures var d, after := s.durable, Advance(cfg, s, o).durable;
      && |after.interventions| >= |d.interventions|
      && forall i | 0 <= i < |after.interventions| ::
           if i < |d.interventions| then after.interventions[i].target == d.interventions[i].target
           else after.interventions[i].target.None?
  {
  }

  lemma DecideChildren(cfg: Config, s: System, o: Oracle)
    requires TriageSafety.PcShape(s) && Children(s)
    requires !TriageSafety.Launching(s.pc) && !s.pc.Retrying? && s.pc != Idle
    ensures Children(Advance(cfg, s, o))
  {
    AdvancePcChildren(cfg, s, o);
    DecideKeeps(cfg, s, o);
    DecideTargets(cfg, s, o);
    var d, after := s.durable, Advance(cfg, s, o).durable;
    forall v | v in after.interventions && v.target.Some? ensures v.target.value < |after.attempts| {
      var i :| 0 <= i < |after.interventions| && after.interventions[i] == v;
      assert d.interventions[i] in d.interventions;
    }
    forall i: nat | Awaited(after, i)
      ensures after.interventions[i].target.value + 1 == |after.attempts| && after.state in {State.Triage, Cancelled}
    {
      assert Awaited(d, i);
      if Marked(s.pc) {
        NoneAwaited(s, i);
      }
    }
  }

  lemma LaunchChildren(cfg: Config, s: System, o: Oracle)
    requires TriageSafety.PcShape(s) && Children(s)
    requires TriageSafety.Launching(s.pc) || s.pc.Retrying?
    ensures Children(Advance(cfg, s, o))
  {
    AdvancePcChildren(cfg, s, o);
    var d, after := s.durable, Advance(cfg, s, o).durable;
    if s.pc.Launching? {
      NothingToReuse(s, s.pc.how);
    }
    forall i: nat | Awaited(after, i)
      ensures after.interventions[i].target.value + 1 == |after.attempts| && after.state in {State.Triage, Cancelled}
    {
      if s.pc.Launching? || s.pc.Starting? {
        NoneAwaited(s, i);
      }
    }
  }

  lemma EnvironmentChildren(cfg: Config, s: System, step: Step)
    requires TriageSafety.PcShape(s) && Children(s) && TriageSafety.Environment(step)
    ensures Children(Next(cfg, s, step))
  {
    TriageSafety.EnvironmentIsQuiet(cfg, s, step);
    var d, after := s.durable, Next(cfg, s, step).durable;
    forall i: nat | Awaited(after, i)
      ensures after.interventions[i].target.value + 1 == |after.attempts| && after.state in {State.Triage, Cancelled}
    {
      assert Awaited(d, i);
    }
  }

  lemma NextChildren(cfg: Config, s: System, step: Step)
    requires TriageSafety.PcShape(s) && Children(s)
    ensures Children(Next(cfg, s, step))
  {
    match step
    case Handle(c, live) =>
      var after := Deliver(s, c, live).durable;
      assert forall i: nat :: Awaited(after, i) ==> Awaited(s.durable, i);
    case Continue(o) =>
      if TriageSafety.Launching(s.pc) || s.pc.Retrying? {
        LaunchChildren(cfg, s, o);
      } else if s.pc != Idle {
        DecideChildren(cfg, s, o);
      }
    case Crash =>
    case Abort =>
    case _ => EnvironmentChildren(cfg, s, step);
  }

  lemma {:induction false} RunsKeepChildren(cfg: Config, steps: seq<Step>)
    ensures Children(Run(cfg, steps))
  {
    if steps != [] {
      RunsKeepChildren(cfg, steps[..|steps| - 1]);
      TriageSafety.RunsHaveShape(cfg, steps[..|steps| - 1]);
      NextChildren(cfg, Run(cfg, steps[..|steps| - 1]), steps[|steps| - 1]);
    }
  }

  /**
   In every run, a launch that starts from triage finds no created child to take up again, so it
   always makes a new attempt.
   */
  lemma EveryLaunchMakesAnAttempt(cfg: Config, steps: seq<Step>, o: Oracle)
    requires Run(cfg, steps).pc.Launching?
    ensures Reusable(Run(cfg, steps).durable, Run(cfg, steps).pc.how) == None
    ensures |Run(cfg, steps + [Continue(o)]).durable.attempts| == |Run(cfg, steps).durable.attempts| + 1
  {
    RunsKeepChildren(cfg, steps);
    NothingToReuse(Run(cfg, steps), Run(cfg, steps).pc.how);
    assert (steps + [Continue(o)])[..|steps|] == steps;
  }
}
