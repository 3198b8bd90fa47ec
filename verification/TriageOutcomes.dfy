/**
 What a delivery the guard let in achieves when no crash, exception or other step falls between
 its writes: a new attempt, a question to a person, or the end the decision on record asks for.
 */
module TriageOutcomes {
  import opened Wrappers
  import opened States
  import opened Triage
  import opened TriageSafety
  import Recovery
  import Supervisor
  import TriageChildren

  // ---------------------------------------------------------------- the rest of a handler, from each of its places

  lemma {:induction false} CarriedFirst(cfg: Config, s: System, os: seq<Oracle>)
    requires os != []
    ensures Carried(cfg, s, os) == Carried(cfg, Advance(cfg, s, os[0]), os[1..])
  {
    var front := os[..|os| - 1];
    if front == [] {
      assert os[1..] == [] && os[|os| - 1] == os[0];
      assert Carried(cfg, s, front) == s;
    } else {
      CarriedFirst(cfg, s, front);
      assert front[1..] == os[1..][..|os[1..]| - 1];
    }
  }

  lemma {:induction false} Rests(cfg: Config, s: System, os: seq<Oracle>)
    requires s.pc == Idle
    ensures Carried(cfg, s, os) == s
  {
    if os != [] {
      Rests(cfg, s, os[..|os| - 1]);
    }
  }

  /** The task handed to a person, its newest attempt settled. */
  function Escalated(d: Durable, policy: Seq): Durable {
    Move(MarkLatest(d, Settled), NeedsHuman, policy)
  }

  lemma EscalatingEnds(cfg: Config, s: System, os: seq<Oracle>)
    requires s.pc.Escalating? && s.durable.state == State.Triage && os != []
    ensures Carried(cfg, s, os) == s.(durable := Move(s.durable, NeedsHuman, s.pc.policy), pc := Idle)
  {
    CarriedFirst(cfg, s, os);
    Rests(cfg, Advance(cfg, s, os[0]), os[1..]);
  }

  lemma MarkingEnds(cfg: Config, s: System, os: seq<Oracle>)
    requires s.pc.Marking? && s.durable.state == State.Triage && |os| >= 2
    ensures Carried(cfg, s, os) == s.(durable := Escalated(s.durable, s.pc.policy), pc := Idle)
  {
    CarriedFirst(cfg, s, os);
    EscalatingEnds(cfg, Advance(cfg, s, os[0]), os[1..]);
  }

  lemma InterruptedEnds(cfg: Config, s: System, os: seq<Oracle>)
    requires s.pc.Interrupted? && s.durable.state == State.Triage && |os| >= 3
    ensures Carried(cfg, s, os)
      == s.(durable := Escalated(EndIntervention(s.durable, s.pc.intervention), s.pc.policy), pc := Idle)
  {
    CarriedFirst(cfg, s, os);
    MarkingEnds(cfg, Advance(cfg, s, os[0]), os[1..]);
  }

  /** The last state write of a launch, and the recovery event of one that no supervisor decided. */
  function Landed(d: Durable, c: Seq, retries: int, how: How, a: nat, spawn: Seq): Durable {
    var running := Move(d, Running, spawn).(retries := retries, current := a);
    if how == Deterministic then Write(running, Attempted(c)) else running
  }

  lemma StartingEnds(cfg: Config, s: System, os: seq<Oracle>)
    requires s.pc.Starting? && s.durable.state == State.Triage && |os| >= 2
    ensures Carried(cfg, s, os) == s.(
      durable := Landed(s.durable, s.pc.cause, s.pc.retries, s.pc.how, s.pc.attempt, s.pc.spawn), pc := Idle)
  {
    CarriedFirst(cfg, s, os);
    var s1 := Advance(cfg, s, os[0]);
    if s.pc.how == Deterministic {
      CarriedFirst(cfg, s1, os[1..]);
      Rests(cfg, Advance(cfg, s1, os[1]), os[1..][1..]);
    } else {
      Rests(cfg, s1, os[1..]);
    }
  }

  lemma LaunchedEnds(cfg: Config, s: System, os: seq<Oracle>)
    requires s.pc.Launched? && s.durable.state == State.Triage && |os| >= 4
    ensures var d, a := s.durable, s.pc.attempt;
      Carried(cfg, s, os) == s.(
        durable := Landed(Write(Mark(d, a, Started), Spawned(a)), s.pc.cause, s.pc.retries, s.pc.how, a, |d.log|),
        pc := Idle)
  {
    CarriedFirst(cfg, s, os);
    var s1 := Advance(cfg, s, os[0]);
    CarriedFirst(cfg, s1, os[1..]);
    StartingEnds(cfg, Advance(cfg, s1, os[1]), os[1..][1..]);
  }

  /** A launch that makes a new attempt. */
  function Launch(d: Durable, c: Seq, retries: int, how: How): Durable {
    var n := |d.attempts|;
    var made := Linked(d.(attempts := d.attempts + [Attempt(Created, NoCause, None)]), how, n);
    Landed(Write(Mark(made, n, Started), Spawned(n)), c, retries, how, n, |d.log|)
  }

  lemma LaunchingEnds(cfg: Config, s: System, os: seq<Oracle>)
    requires s.pc.Launching? && s.durable.state == State.Triage && Reusable(s.durable, s.pc.how) == None && |os| >= 6
    ensures Carried(cfg, s, os)
      == s.(durable := Launch(s.durable, s.pc.cause, s.pc.retries, s.pc.how), pc := Idle)
  {
    CarriedFirst(cfg, s, os);
    var s1 := Advance(cfg, s, os[0]);
    if s.pc.how == Deterministic {
      LaunchedEnds(cfg, s1, os[1..]);
    } else {
      CarriedFirst(cfg, s1, os[1..]);
      LaunchedEnds(cfg, Advance(cfg, s1, os[1]), os[1..][1..]);
    }
  }

  /** The newest attempt asked to be retried, with its failure when the protocol repair is the reason. */
  function Requested(d: Durable, protocol: bool): Durable
    requires d.attempts != []
  {
    var a := Latest(d).(disposition := RetryRequested);
    d.(attempts := d.attempts[|d.attempts| - 1 := if protocol then a.(failure := OtherCause) else a])
  }

  lemma RetryingEnds(cfg: Config, s: System, os: seq<Oracle>)
    requires s.pc.Retrying? && s.durable.state == State.Triage && s.durable.attempts != [] && |os| >= 7
    ensures var d := s.durable;
      Carried(cfg, s, os)
      == System(Launch(Requested(d, s.pc.protocol), s.pc.cause, d.retries + 1, Deterministic), Idle, false)
  {
    CarriedFirst(cfg, s, os);
    var s1 := Advance(cfg, s, os[0]);
    assert s1.durable.attempts == Requested(s.durable, s.pc.protocol).attempts;
    LaunchingEnds(cfg, s1, os[1..]);
  }

  /** What the dispatch of action `a`, recorded as event k under intervention i, makes of the task. */
  function Dispatched(s: System, c: Seq, a: Action, k: Seq, i: nat): System {
    var d := s.durable;
    match a
    case Nudge => System(Move(d, Running, k), Idle, s.waiting)
    case Wait => System(Move(d, Running, k), Idle, true)
    case Restart => System(Launch(d, c, d.retries + 1, Supervised(i)), Idle, false)
    case EscalateHuman => System(Escalated(d, k), Idle, s.waiting)
    case Abandon => System(Move(d, Failed, k), Idle, s.waiting)
  }

  lemma DispatchingEnds(cfg: Config, s: System, os: seq<Oracle>)
    requires s.pc.Dispatching? && s.durable.state == State.Triage && |os| >= 7
    requires s.pc.action == Supervisor.Restart ==> Reusable(s.durable, Supervised(s.pc.intervention)) == None
    ensures Carried(cfg, s, os) == Dispatched(s, s.pc.cause, s.pc.action, s.pc.acted, s.pc.intervention)
  {
    CarriedFirst(cfg, s, os);
    var s1 := Advance(cfg, s, os[0]);
    match s.pc.action {
      case Restart => LaunchingEnds(cfg, s1, os[1..]);
      case EscalateHuman => MarkingEnds(cfg, s1, os[1..]);
      case _ => Rests(cfg, s1, os[1..]);
    }
  }

  /** The two updates between a decision and its dispatch. */
  function Closed(d: Durable, a: Action, i: nat, isNew: bool): Durable {
    var marked := MarkLatest(d, if a == Supervisor.Restart then RetryRequested else Settled);
    if isNew then EndIntervention(marked, i) else marked
  }

  lemma DecidedEnds(cfg: Config, s: System, os: seq<Oracle>)
    requires s.pc.Decided? && s.durable.state == State.Triage && |os| >= 9
    requires var d := Closed(s.durable, s.pc.action, s.pc.intervention, s.pc.isNew);
      s.pc.action == Supervisor.Restart ==> Reusable(d, Supervised(s.pc.intervention)) == None
    ensures var d := Closed(s.durable, s.pc.action, s.pc.intervention, s.pc.isNew);
      Carried(cfg, s, os)
      == Dispatched(s.(durable := d), s.pc.cause, s.pc.action, s.pc.acted, s.pc.intervention)
  {
    CarriedFirst(cfg, s, os);
    var s1 := Advance(cfg, s, os[0]);
    if s.pc.isNew {
      CarriedFirst(cfg, s1, os[1..]);
      DispatchingEnds(cfg, Advance(cfg, s1, os[1]), os[1..][1..]);
    } else {
      DispatchingEnds(cfg, s1, os[1..]);
    }
  }

  // ---------------------------------------------------------------- what was decided

  /** The first words of a failure's public evidence that no deterministic path acts on. */
  const GIVEN_UP: set<string> := {
    "startup_authentication_failure", "sdk_timeout", "timeout_stall", "delivery_failure",
    "repeated_equivalent_failure"
  }

  /** The failures that are retried without asking anybody. */
  predicate Retryable(cfg: Config, d: Durable, c: Seq)
    requires IsSignal(d.log, c) && d.attempts != []
  {
    && d.retries < cfg.maxRetries
    && var (t, e) := (d.log[c].trigger, d.log[c].evidence);
       match t
       case Exited => cfg.crashRecovery && d.log[c].exitCode != 0 && Latest(d).failure == WorkerExit
       case Incomplete => cfg.protocolRecovery && forall i | 0 <= i < |d.log| :: d.log[i] != PolicyApplied(true)
       case VerifyFailed | ArtifactFailed | InterfaceFailed =>
         cfg.publicRecovery && (if e.failureClass != "" then e.failureClass else e.category) !in GIVEN_UP
       case _ => false
  }

  lemma {:induction false} NoRepairs(log: Log)
    ensures ProtocolRepairs(log) == 0 <==> forall i | 0 <= i < |log| :: log[i] != PolicyApplied(true)
  {
    if log != [] {
      var front := log[..|log| - 1];
      NoRepairs(front);
      assert forall i | 0 <= i < |front| :: front[i] == log[i];
      assert (forall i | 0 <= i < |log| :: log[i] != PolicyApplied(true))
        <==> (forall i | 0 <= i < |front| :: front[i] != PolicyApplied(true)) && log[|log| - 1] != PolicyApplied(true);
    }
  }

  lemma NamedClassDecides(t: Trigger, e: Recovery.Evidence, retries: int, maxRetries: int)
    requires t in {Recovery.VerifyFailed, Recovery.ArtifactFailed, Recovery.InterfaceFailed}
    ensures Recovery.Relaunches(Recovery.ChooseRecovery(Recovery.ClassifyFailure(t, e), retries, maxRetries, 0, false))
      <==> retries < maxRetries && (if e.failureClass != "" then e.failureClass else e.category) !in GIVEN_UP
  {
  }

  /** The three deterministic paths go ahead exactly for these failures; at most one of them applies. */
  lemma RetryableIff(cfg: Config, d: Durable, c: Seq)
    requires IsSignal(d.log, c) && d.attempts != []
    ensures Retryable(cfg, d, c) <==> CrashAccepts(cfg, d, c) || ProtocolAccepts(cfg, d, c) || PublicAccepts(cfg, d, c)
    ensures ProtocolAccepts(cfg, d, c) <==> Retryable(cfg, d, c) && d.log[c].trigger == Recovery.Incomplete
  {
    NoRepairs(d.log);
    if d.log[c].trigger in {Recovery.VerifyFailed, Recovery.ArtifactFailed, Recovery.InterfaceFailed} {
      NamedClassDecides(d.log[c].trigger, d.log[c].evidence, d.retries, cfg.maxRetries);
    }
  }

  /** Attempts before the newest one that failed the way it did. */
  function Equals(attempts: seq<Attempt>, signature: nat): set<nat> {
    set i: nat | i < |attempts| && attempts[i].signature == Some(signature)
  }

  lemma {:induction false} SameSignatureCounts(attempts: seq<Attempt>, signature: nat)
    ensures SameSignature(attempts, signature) == |Equals(attempts, signature)|
  {
    if attempts != [] {
      var last := |attempts| - 1;
      var front := attempts[..last];
      SameSignatureCounts(front, signature);
      assert Equals(attempts, signature)
        == Equals(front, signature) + if attempts[last].signature == Some(signature) then {last} else {};
    }
  }

  /** The newest attempt repeats earlier failures on an unchanged tree, or repeats any with the budget gone. */
  predicate Hopeless(cfg: Config, d: Durable, treeChanged: bool)
    requires d.attempts != []
  {
    && Latest(d).signature.Some?
    && var earlier := d.attempts[..|d.attempts| - 1];
       || (|Equals(earlier, Latest(d).signature.value)| >= cfg.repeatedThreshold && !treeChanged)
       || (d.retries >= cfg.maxRetries && earlier != [])
  }

  lemma HopelessIff(cfg: Config, d: Durable)
    requires d.attempts != []
    ensures forall treeChanged :: PolicyEscalates(cfg, d, treeChanged) <==> Hopeless(cfg, d, treeChanged)
  {
    if Latest(d).signature.Some? {
      SameSignatureCounts(d.attempts[..|d.attempts| - 1], Latest(d).signature.value);
    }
  }

  /** i is the newest intervention whose answer was never recorded. */
  predicate OpenSince(v: seq<Intervention>, i: nat) {
    i < |v| && !v[i].ended && forall j | i < j < |v| :: v[j].ended
  }

  lemma {:induction false} UnfinishedIsOpen(v: seq<Intervention>)
    ensures match Unfinished(v)
            case Some(i) => OpenSince(v, i)
            case None => forall i | 0 <= i < |v| :: v[i].ended
  {
    if v != [] && v[|v| - 1].ended {
      UnfinishedIsOpen(v[..|v| - 1]);
      assert forall i | 0 <= i < |v| - 1 :: v[..|v| - 1][i] == v[i];
    }
  }

  /** k is the newest decision recorded for the cause. */
  predicate DecidedAt(log: Log, c: Seq, k: Seq) {
    && k < |log| && log[k].Acted? && log[k].actedFor == c
    && forall j | k < j < |log| :: !(log[j].Acted? && log[j].actedFor == c)
  }

  lemma {:induction false} PersistedIsNewest(log: Log, c: Seq)
    ensures match Persisted(log, c)
            case Some(k) => DecidedAt(log, c, k)
            case None => forall k | 0 <= k < |log| :: !(log[k].Acted? && log[k].actedFor == c)
  {
    if log != [] && !(log[|log| - 1].Acted? && log[|log| - 1].actedFor == c) {
      PersistedIsNewest(log[..|log| - 1], c);
      assert forall i | 0 <= i < |log| - 1 :: log[..|log| - 1][i] == log[i];
    }
  }

  // ---------------------------------------------------------------- the ends of a delivery

  /** One more attempt, started and current, and one retry spent; the attempt before it asked for it. */
  predicate GainsAttempt(d: Durable, after: Durable)
    requires d.attempts != []
  {
    var n := |d.attempts|;
    && after.state == Running && after.retries == d.retries + 1 && after.current == n
    && |after.attempts| == n + 1 && after.attempts[n] == Attempt(Started, NoCause, None)
    && after.attempts[..n - 1] == d.attempts[..n - 1]
    && after.attempts[n - 1].disposition == RetryRequested
    && after.attempts[n - 1].signature == d.attempts[n - 1].signature
  }

  /** No retry spent and no attempt made; the newest one is settled. */
  predicate KeepsAttempts(d: Durable, after: Durable)
    requires d.attempts != []
  {
    var n := |d.attempts|;
    && after.retries == d.retries && after.current == d.current && |after.attempts| == n
    && after.attempts[..n - 1] == d.attempts[..n - 1]
    && after.attempts[n - 1] == d.attempts[n - 1].(disposition := Settled)
  }

  /** What a launch makes of a task whose newest attempt asked to be retried. */
  lemma LaunchMeans(d: Durable, ready: Durable, c: Seq, how: How)
    requires d.attempts != [] && |ready.attempts| == |d.attempts| && ready.state == State.Triage
    requires ready.retries == d.retries && ready.attempts[..|d.attempts| - 1] == d.attempts[..|d.attempts| - 1]
    requires Latest(ready).disposition == RetryRequested && Latest(ready).signature == Latest(d).signature
    ensures var (after, n) := (Launch(ready, c, d.retries + 1, how), |d.attempts|);
      && GainsAttempt(d, after)
      && after.interventions == Linked(ready, how, n).interventions
      && after.log == ready.log + [Spawned(n)] + [Changed(State.Triage, Running, |ready.log|)]
           + if how == Deterministic then [Attempted(c)] else []
  {
  }

  lemma RetryableRuns(cfg: Config, s: System, os: seq<Oracle>)
    requires PcShape(s) && s.pc.Entered? && s.durable.state == State.Triage && |os| >= 13
    requires Retryable(cfg, s.durable, s.pc.cause)
    ensures var (d, c) := (s.durable, s.pc.cause);
      var protocol := d.log[c].trigger == Recovery.Incomplete;
      Carried(cfg, s, os) == System(
        Launch(Requested(Write(d, PolicyApplied(protocol)), protocol), c, d.retries + 1, Deterministic), Idle, false)
  {
    var d, c := s.durable, s.pc.cause;
    var protocol := d.log[c].trigger == Recovery.Incomplete;
    RetryableIff(cfg, d, c);
    CarriedFirst(cfg, s, os);
    var s1 := Advance(cfg, s, os[0]);
    assert s1 == s.(durable := Write(d, PolicyApplied(protocol)), pc := Retrying(c, protocol));
    RetryingEnds(cfg, s1, os[1..]);
  }

  /** One recovery more of this cause, and of no other. */
  ghost predicate OneMore(log: Log, after: Log, c: Seq) {
    forall e :: Recoveries(after, e) == Recoveries(log, e) + if e == c then 1 else 0
  }

  lemma RetryLog(log: Log, p: bool, a: nat, b: Event, c: Seq)
    requires b.Changed?
    ensures var after := log + [PolicyApplied(p)] + [Spawned(a)] + [b] + [Attempted(c)];
      && after == log + [PolicyApplied(p), Spawned(a), b, Attempted(c)]
      && OneMore(log, after, c)
  {
    Append(log, PolicyApplied(p));
    Append(log + [PolicyApplied(p)], Spawned(a));
    Append(log + [PolicyApplied(p)] + [Spawned(a)], b);
    Append(log + [PolicyApplied(p)] + [Spawned(a)] + [b], Attempted(c));
  }

  lemma RetryMeans(d: Durable, c: Seq, protocol: bool)
    requires d.attempts != [] && d.state == State.Triage
    ensures var ready := Requested(Write(d, PolicyApplied(protocol)), protocol);
      var after := Launch(ready, c, d.retries + 1, Deterministic);
      && GainsAttempt(d, after) && after.interventions == d.interventions
      && after.log == d.log + [PolicyApplied(protocol), Spawned(|d.attempts|),
                               Changed(State.Triage, Running, |d.log| + 1), Attempted(c)]
      && OneMore(d.log, after.log, c)
  {
    LaunchMeans(d, Requested(Write(d, PolicyApplied(protocol)), protocol), c, Deterministic);
    RetryLog(d.log, protocol, |d.attempts|, Changed(State.Triage, Running, |d.log| + 1), c);
  }

  /** A retryable failure ends in a new attempt, recorded as the recovery of its cause. */
  lemma RetryableIsRelaunched(cfg: Config, s: System, os: seq<Oracle>)
    requires Shape(s) && s.pc.Entered? && s.durable.state == State.Triage && |os| >= 13
    requires Retryable(cfg, s.durable, s.pc.cause)
    ensures var (d, t, c) := (s.durable, Carried(cfg, s, os), s.pc.cause);
      && t.pc == Idle && !t.waiting && GainsAttempt(d, t.durable) && t.durable.interventions == d.interventions
      && t.durable.log == d.log + [PolicyApplied(d.log[c].trigger == Recovery.Incomplete), Spawned(|d.attempts|),
                                   Changed(State.Triage, Running, |d.log| + 1), Attempted(c)]
      && OneMore(d.log, t.durable.log, c)
  {
    var d, c := s.durable, s.pc.cause;
    var protocol := d.log[c].trigger == Recovery.Incomplete;
    RetryableRuns(cfg, s, os);
    RetryMeans(d, c, protocol);
  }

  /** A hopeless failure, or one whose supervisor never answered, ends with a person. */
  lemma StuckGoesToPerson(cfg: Config, s: System, os: seq<Oracle>)
    requires Shape(s) && s.pc.Entered? && s.durable.state == State.Triage && |os| >= 13
    requires !Retryable(cfg, s.durable, s.pc.cause)
    requires Hopeless(cfg, s.durable, os[0].treeChanged) || exists v :: v in s.durable.interventions && !v.ended
    ensures var (d, t) := (s.durable, Carried(cfg, s, os));
      && t.pc == Idle && t.waiting == s.waiting && t.durable.state == NeedsHuman && KeepsAttempts(d, t.durable)
      && t.durable.log == d.log + [PolicyApplied(false), Changed(State.Triage, NeedsHuman, |d.log|)]
      && if Hopeless(cfg, d, os[0].treeChanged) then t.durable.interventions == d.interventions
         else exists i: nat :: OpenSince(d.interventions, i)
                          && t.durable.interventions == d.interventions[i := d.interventions[i].(ended := true)]
  {
    var d, c := s.durable, s.pc.cause;
    RetryableIff(cfg, d, c);
    HopelessIff(cfg, d);
    UnfinishedIsOpen(d.interventions);
    CarriedFirst(cfg, s, os);
    var s1 := Advance(cfg, s, os[0]);
    if Hopeless(cfg, d, os[0].treeChanged) {
      MarkingEnds(cfg, s1, os[1..]);
    } else {
      var v :| v in d.interventions && !v.ended;
      InterruptedEnds(cfg, s1, os[1..]);
    }
  }

  /** The decided action if the menu offers it, else a question to a person. */
  function Offered(cfg: Config, d: Durable, c: Seq, live: bool, a: Action): Action {
    if OnMenu(cfg, d, c, live, a) then a else Supervisor.EscalateHuman
  }

  /** The task after decision `a`, event k of the log, is carried out; `more` was logged on the way. */
  predicate CarriesOut(s: System, t: System, a: Action, k: Seq, more: Log)
    requires s.durable.attempts != []
  {
    var (d, after) := (s.durable, t.durable);
    && t.pc == Idle
    && match a
       case Nudge =>
         after.state == Running && KeepsAttempts(d, after) && t.waiting == s.waiting
         && after.log == d.log + more + [Changed(State.Triage, Running, k)]
       case Wait =>
         after.state == Running && KeepsAttempts(d, after) && t.waiting
         && after.log == d.log + more + [Changed(State.Triage, Running, k)]
       case Restart =>
         GainsAttempt(d, after) && !t.waiting
         && after.log == d.log + more + [Spawned(|d.attempts|), Changed(State.Triage, Running, |d.log + more|)]
       case EscalateHuman =>
         after.state == NeedsHuman && KeepsAttempts(d, after) && t.waiting == s.waiting
         && after.log == d.log + more + [Changed(State.Triage, NeedsHuman, k)]
       case Abandon =>
         after.state == Failed && KeepsAttempts(d, after) && t.waiting == s.waiting
         && after.log == d.log + more + [Changed(State.Triage, Failed, k)]
  }

  /** Intervention i of a restart points at the attempt it made; nothing else about v changes. */
  predicate Targets(v: seq<Intervention>, after: seq<Intervention>, a: Action, i: nat, n: nat) {
    && |after| == |v|
    && forall j | 0 <= j < |v| ::
         after[j] == if a == Supervisor.Restart && j == i then v[j].(target := Some(n)) else v[j]
  }

  /** No earlier child is taken up again once the newest attempt is marked. */
  lemma NoChildLeft(s: System, d: Durable, i: nat)
    requires TriageChildren.Children(s) && s.durable.attempts != [] && |d.attempts| == |s.durable.attempts|
    requires Latest(d).disposition != Created
    requires d.attempts[..|d.attempts| - 1] == s.durable.attempts[..|d.attempts| - 1]
    requires forall j | 0 <= j < |d.interventions| && d.interventions[j].target.Some? ::
               j < |s.durable.interventions| && d.interventions[j].target == s.durable.interventions[j].target
    ensures Reusable(d, Supervised(i)) == None
  {
    if i < |d.interventions| && d.interventions[i].target.Some? {
      var x := d.interventions[i].target.value;
      if x < |d.attempts| - 1 {
        assert d.attempts[x] == d.attempts[..|d.attempts| - 1][x] == s.durable.attempts[x];
        assert !TriageChildren.Awaited(s.durable, i);
      }
    }
  }

  lemma RestartCarriesOut(s: System, u: System, c: Seq, k: Seq, i: nat, more: Log)
    requires Prepared(s, u, Supervisor.Restart, more)
    ensures var t := Dispatched(u, c, Supervisor.Restart, k, i);
      && CarriesOut(s, t, Supervisor.Restart, k, more)
      && Targets(u.durable.interventions, t.durable.interventions, Supervisor.Restart, i, |s.durable.attempts|)
  {
    LaunchMeans(s.durable, u.durable, c, Supervised(i));
    var (a, b) := (Spawned(|s.durable.attempts|), Changed(State.Triage, Running, |s.durable.log + more|));
    assert u.durable.log + [a] + [b] + [] == s.durable.log + more + [a, b];
  }

  /** Everything but the dispatch of decision `a` is done: `more` is on the log and the newest attempt is marked. */
  predicate Prepared(s: System, u: System, a: Action, more: Log) {
    var (d, e) := (s.durable, u.durable);
    && d.attempts != [] && u.waiting == s.waiting && e.state == State.Triage && e.log == d.log + more
    && e.retries == d.retries && e.current == d.current && |e.attempts| == |d.attempts|
    && e.attempts[..|d.attempts| - 1] == d.attempts[..|d.attempts| - 1]
    && Latest(e) == Latest(d).(disposition := if a == Supervisor.Restart then RetryRequested else Settled)
  }

  lemma DispatchCarriesOut(s: System, u: System, c: Seq, a: Action, k: Seq, i: nat, more: Log)
    requires Prepared(s, u, a, more)
    ensures var t := Dispatched(u, c, a, k, i);
      && CarriesOut(s, t, a, k, more)
      && Targets(u.durable.interventions, t.durable.interventions, a, i, |s.durable.attempts|)
  {
    if a == Supervisor.Restart {
      RestartCarriesOut(s, u, c, k, i, more);
    }
  }

  /** Nothing short of the supervisor resolves the cause. */
  predicate Referred(cfg: Config, s: System, treeChanged: bool)
    requires PcShape(s) && s.pc.Entered?
  {
    && !Retryable(cfg, s.durable, s.pc.cause) && !Hopeless(cfg, s.durable, treeChanged)
    && forall v :: v in s.durable.interventions ==> v.ended
  }

  lemma ReferredMeans(cfg: Config, s: System, treeChanged: bool)
    requires PcShape(s) && s.pc.Entered? && Referred(cfg, s, treeChanged)
    ensures var (d, c) := (s.durable, s.pc.cause);
      && !CrashAccepts(cfg, d, c) && !ProtocolAccepts(cfg, d, c) && !PublicAccepts(cfg, d, c)
      && !PolicyEscalates(cfg, d, treeChanged) && Unfinished(d.interventions) == None
  {
    var d := s.durable;
    RetryableIff(cfg, d, s.pc.cause);
    HopelessIff(cfg, d);
    UnfinishedIsOpen(d.interventions);
  }

  lemma RecordRuns(cfg: Config, s: System, os: seq<Oracle>, k: Seq)
    requires PcShape(s) && TriageChildren.Children(s)
    requires s.pc.Entered? && s.durable.state == State.Triage && |os| >= 13
    requires Referred(cfg, s, os[0].treeChanged) && DecidedAt(s.durable.log, s.pc.cause, k)
    ensures var (d, c, i) := (s.durable, s.pc.cause, s.durable.log[k].intervention);
      var a := Offered(cfg, d, c, s.pc.live, d.log[k].action);
      var u := s.(durable := Closed(d, a, i, false));
      && Carried(cfg, s, os) == Dispatched(u, c, a, k, i) && Prepared(s, u, a, [])
      && u.durable.interventions == d.interventions
  {
    var d, c, i := s.durable, s.pc.cause, s.durable.log[k].intervention;
    var a := Offered(cfg, d, c, s.pc.live, d.log[k].action);
    ReferredMeans(cfg, s, os[0].treeChanged);
    PersistedIsNewest(d.log, c);
    CarriedFirst(cfg, s, os);
    var s1 := Advance(cfg, s, os[0]);
    assert s1 == s.(pc := Decided(c, a, k, i, false));
    NoChildLeft(s, Closed(d, a, i, false), i);
    DecidedEnds(cfg, s1, os[1..]);
    assert d.log + [] == d.log;
  }

  /** A decision on record for the cause is carried out without asking again. */
  lemma RecordIsCarriedOut(cfg: Config, s: System, os: seq<Oracle>, k: Seq)
    requires PcShape(s) && TriageChildren.Children(s)
    requires s.pc.Entered? && s.durable.state == State.Triage && |os| >= 13
    requires Referred(cfg, s, os[0].treeChanged) && DecidedAt(s.durable.log, s.pc.cause, k)
    ensures var (d, t) := (s.durable, Carried(cfg, s, os));
      var a := Offered(cfg, d, s.pc.cause, s.pc.live, d.log[k].action);
      && CarriesOut(s, t, a, k, [])
      && Targets(d.interventions, t.durable.interventions, a, d.log[k].intervention, |d.attempts|)
  {
    var d, c, i := s.durable, s.pc.cause, s.durable.log[k].intervention;
    var a := Offered(cfg, d, c, s.pc.live, d.log[k].action);
    RecordRuns(cfg, s, os, k);
    DispatchCarriesOut(s, s.(durable := Closed(d, a, i, false)), c, a, k, i, []);
  }

  // ---------------------------------------------------------------- asking the supervisor

  /** The events of one call and the answer taken from it. */
  function CallLog(c: Seq, a: Action, i: nat): Log {
    [Invoked(c), Acted(c, a, i)]
  }

  lemma OfferedKept(cfg: Config, d: Durable, after: Durable, c: Seq, live: bool, a: Action)
    requires c < |d.log| && after.log == d.log + [Invoked(c)] && after.retries == d.retries
    ensures Offered(cfg, after, c, live, a) == Offered(cfg, d, c, live, a)
  {
    Append(d.log, Invoked(c));
  }

  lemma AskingEnds(cfg: Config, s: System, os: seq<Oracle>)
    requires s.pc.Asking? && s.durable.state == State.Triage && |os| >= 10
    requires var (d, c, i) := (s.durable, s.pc.cause, s.pc.intervention);
      var a := Offered(cfg, d, c, s.pc.live, os[0].answer);
      a == Supervisor.Restart ==> Reusable(Closed(Write(d, Acted(c, a, i)), a, i, true), Supervised(i)) == None
    ensures var (d, c, i) := (s.durable, s.pc.cause, s.pc.intervention);
      var a := Offered(cfg, d, c, s.pc.live, os[0].answer);
      Carried(cfg, s, os)
      == Dispatched(s.(durable := Closed(Write(d, Acted(c, a, i)), a, i, true)), c, a, |d.log|, i)
  {
    CarriedFirst(cfg, s, os);
    DecidedEnds(cfg, Advance(cfg, s, os[0]), os[1..]);
  }

  lemma InvokingEnds(cfg: Config, s: System, os: seq<Oracle>)
    requires s.pc.Invoking? && s.durable.state == State.Triage && |os| >= 11 && s.pc.cause < |s.durable.log|
    requires var (d, c, i) := (s.durable, s.pc.cause, s.pc.intervention);
      var a := Offered(cfg, d, c, s.pc.live, os[1].answer);
      a == Supervisor.Restart
      ==> Reusable(Closed(d.(log := d.log + CallLog(c, a, i)), a, i, true), Supervised(i)) == None
    ensures var (d, c, i) := (s.durable, s.pc.cause, s.pc.intervention);
      var a := Offered(cfg, d, c, s.pc.live, os[1].answer);
      Carried(cfg, s, os) == Dispatched(
        s.(durable := Closed(d.(log := d.log + CallLog(c, a, i)), a, i, true)), c, a, |d.log| + 1, i)
  {
    var d, c, i := s.durable, s.pc.cause, s.pc.intervention;
    var a := Offered(cfg, d, c, s.pc.live, os[1].answer);
    CarriedFirst(cfg, s, os);
    var s1 := Advance(cfg, s, os[0]);
    OfferedKept(cfg, d, s1.durable, c, s.pc.live, os[1].answer);
    assert Write(s1.durable, Acted(c, a, i)) == d.(log := d.log + CallLog(c, a, i));
    AskingEnds(cfg, s1, os[1..]);
  }

  /** The task once the supervisor's answer is recorded and the intervention closed. */
  function Recorded(d: Durable, c: Seq, a: Action): Durable
    requires d.attempts != []
  {
    Closed(Reserving(d).(log := d.log + CallLog(c, a, |d.interventions|)), a, |d.interventions|, true)
  }

  /** The task once an intervention is opened for its newest attempt. */
  function Reserving(d: Durable): Durable
    requires d.attempts != []
  {
    MarkLatest(d.(interventions := d.interventions + [Intervention(|d.attempts| - 1, false, None)]), Settled)
  }

  lemma ReservationRuns(cfg: Config, s: System, os: seq<Oracle>)
    requires PcShape(s) && s.pc.Entered? && s.durable.state == State.Triage && |os| >= 13
    requires Referred(cfg, s, os[0].treeChanged) && forall k :: !DecidedAt(s.durable.log, s.pc.cause, k)
    ensures var (d, c) := (s.durable, s.pc.cause);
      Carried(cfg, s, os)
      == Carried(cfg, System(Reserving(d), Invoking(c, s.pc.live, |d.interventions|), s.waiting), os[2..])
  {
    var d, c := s.durable, s.pc.cause;
    ReferredMeans(cfg, s, os[0].treeChanged);
    PersistedIsNewest(d.log, c);
    CarriedFirst(cfg, s, os);
    var s1 := Advance(cfg, s, os[0]);
    assert s1.pc == Reserved(c, s.pc.live, |d.interventions|);
    CarriedFirst(cfg, s1, os[1..]);
    assert os[1..][1..] == os[2..];
  }

  lemma RecordedMeans(s: System, a: Action)
    requires s.pc.Entered? && s.durable.attempts != [] && s.durable.state == State.Triage
    ensures var (d, c) := (s.durable, s.pc.cause);
      var u := Recorded(d, c, a);
      && Prepared(s, s.(durable := u), a, CallLog(c, a, |d.interventions|))
      && u.interventions == d.interventions + [Intervention(|d.attempts| - 1, true, None)]
  {
  }

  lemma OfferedSame(cfg: Config, d: Durable, after: Durable, c: Seq, live: bool, a: Action)
    requires after.log == d.log && after.retries == d.retries
    ensures Offered(cfg, after, c, live, a) == Offered(cfg, d, c, live, a)
  {
  }

  lemma RecordedHasNoChild(s: System, a: Action)
    requires TriageChildren.Children(s) && s.pc.Entered? && s.durable.attempts != []
    requires s.durable.state == State.Triage
    ensures Reusable(Recorded(s.durable, s.pc.cause, a), Supervised(|s.durable.interventions|)) == None
  {
    RecordedMeans(s, a);
    NoChildLeft(s, Recorded(s.durable, s.pc.cause, a), |s.durable.interventions|);
  }

  lemma ReservedEnds(cfg: Config, s: System, u: System, os: seq<Oracle>)
    requires PcShape(s) && TriageChildren.Children(s) && s.pc.Entered? && s.durable.state == State.Triage
    requires u == System(Reserving(s.durable), Invoking(s.pc.cause, s.pc.live, |s.durable.interventions|), s.waiting)
    requires |os| >= 11
    ensures var (d, c) := (s.durable, s.pc.cause);
      var a := Offered(cfg, d, c, s.pc.live, os[1].answer);
      Carried(cfg, u, os) == Dispatched(u.(durable := Recorded(d, c, a)), c, a, |d.log| + 1, |d.interventions|)
  {
    var d, c := s.durable, s.pc.cause;
    assert u.durable.state == State.Triage && u.durable.log == d.log;
    OfferedSame(cfg, d, u.durable, c, s.pc.live, os[1].answer);
    RecordedHasNoChild(s, Offered(cfg, d, c, s.pc.live, os[1].answer));
    InvokingEnds(cfg, u, os);
  }

  lemma AnswerRuns(cfg: Config, s: System, os: seq<Oracle>)
    requires PcShape(s) && TriageChildren.Children(s)
    requires s.pc.Entered? && s.durable.state == State.Triage && |os| >= 13
    requires Referred(cfg, s, os[0].treeChanged) && forall k :: !DecidedAt(s.durable.log, s.pc.cause, k)
    ensures var (d, c, i) := (s.durable, s.pc.cause, |s.durable.interventions|);
      var a := Offered(cfg, d, c, s.pc.live, os[3].answer);
      Carried(cfg, s, os) == Dispatched(s.(durable := Recorded(d, c, a)), c, a, |d.log| + 1, i)
  {
    var d, c, i := s.durable, s.pc.cause, |s.durable.interventions|;
    ReservationRuns(cfg, s, os);
    ReservedEnds(cfg, s, System(Reserving(d), Invoking(c, s.pc.live, i), s.waiting), os[2..]);
  }

  /** Without one the supervisor is asked once, and its answer is recorded and carried out. */
  lemma AnswerIsCarriedOut(cfg: Config, s: System, os: seq<Oracle>)
    requires PcShape(s) && TriageChildren.Children(s)
    requires s.pc.Entered? && s.durable.state == State.Triage && |os| >= 13
    requires Referred(cfg, s, os[0].treeChanged) && forall k :: !DecidedAt(s.durable.log, s.pc.cause, k)
    ensures var (d, t, c, i) := (s.durable, Carried(cfg, s, os), s.pc.cause, |s.durable.interventions|);
      var a := Offered(cfg, d, c, s.pc.live, os[3].answer);
      && CarriesOut(s, t, a, |d.log| + 1, [Invoked(c), Acted(c, a, i)])
      && Targets(d.interventions + [Intervention(|d.attempts| - 1, true, None)], t.durable.interventions,
                 a, i, |d.attempts|)
  {
    var d, c, i := s.durable, s.pc.cause, |s.durable.interventions|;
    var a := Offered(cfg, d, c, s.pc.live, os[3].answer);
    AnswerRuns(cfg, s, os);
    RecordedMeans(s, a);
    DispatchCarriesOut(s, s.(durable := Recorded(d, c, a)), c, a, |d.log| + 1, i, CallLog(c, a, i));
  }

  // ---------------------------------------------------------------- every delivery of every run

  /** The action the menu lets through: the one on record for the cause, or the supervisor's answer. */
  function Chosen(cfg: Config, s: System, answer: Action): Action
    requires s.pc.Entered?
  {
    var d := s.durable;
    Offered(cfg, d, s.pc.cause, s.pc.live,
            match Persisted(d.log, s.pc.cause) case Some(k) => d.log[k].action case None => answer)
  }

  lemma ReferredEnds(cfg: Config, s: System, os: seq<Oracle>)
    requires PcShape(s) && TriageChildren.Children(s)
    requires s.pc.Entered? && s.durable.state == State.Triage && |os| >= 13
    requires Referred(cfg, s, os[0].treeChanged)
    ensures exists k, more :: CarriesOut(s, Carried(cfg, s, os), Chosen(cfg, s, os[3].answer), k, more)
  {
    var d := s.durable;
    PersistedIsNewest(d.log, s.pc.cause);
    match Persisted(d.log, s.pc.cause)
    case Some(k) =>
      RecordIsCarriedOut(cfg, s, os, k);
      assert CarriesOut(s, Carried(cfg, s, os), Chosen(cfg, s, os[3].answer), k, []);
    case None =>
      var (a, i) := (Chosen(cfg, s, os[3].answer), |d.interventions|);
      AnswerIsCarriedOut(cfg, s, os);
      assert CarriesOut(s, Carried(cfg, s, os), a, |d.log| + 1, [Invoked(s.pc.cause), Acted(s.pc.cause, a, i)]);
  }

  /**
   Over every run, a delivery that found the task in triage and is carried on undisturbed: exactly when
   it makes a new attempt, goes to a person, fails the task, or lets the worker go on.
   */
  lemma EveryDeliveryEnds(cfg: Config, steps: seq<Step>, os: seq<Oracle>)
    requires Run(cfg, steps).pc.Entered? && Run(cfg, steps).durable.state == State.Triage && |os| >= 13
    ensures PcShape(Run(cfg, steps))
    ensures var (s, t) := (Run(cfg, steps), Carried(cfg, Run(cfg, steps), os));
      var (d, after) := (s.durable, t.durable);
      var (retryable, referred) := (Retryable(cfg, d, s.pc.cause), Referred(cfg, s, os[0].treeChanged));
      var a := Chosen(cfg, s, os[3].answer);
      && t.pc == Idle
      && (GainsAttempt(d, after) <==> retryable || (referred && a == Supervisor.Restart))
      && (after.state == NeedsHuman && KeepsAttempts(d, after)
          <==> !retryable && (!referred || a == Supervisor.EscalateHuman))
      && (after.state == Failed && KeepsAttempts(d, after) <==> referred && a == Supervisor.Abandon)
      && (after.state == Running && KeepsAttempts(d, after)
          <==> referred && a in {Supervisor.Nudge, Supervisor.Wait})
  {
    var s := Run(cfg, steps);
    RunsHaveShape(cfg, steps);
    TriageChildren.RunsKeepChildren(cfg, steps);
    if Retryable(cfg, s.durable, s.pc.cause) {
      RetryableIsRelaunched(cfg, s, os);
    } else if Referred(cfg, s, os[0].treeChanged) {
      ReferredEnds(cfg, s, os);
    } else {
      StuckGoesToPerson(cfg, s, os);
    }
  }

  // ---------------------------------------------------------------- which deliveries the guard lets in

  /** Event k is the first recovery of the cause. */
  predicate FirstRecovery(log: Log, c: Seq, k: Seq) {
    k < |log| && IsRecovery(log[k], c) && forall j | 0 <= j < k :: !IsRecovery(log[j], c)
  }

  lemma {:induction false} HandledIsFirst(log: Log, c: Seq)
    ensures match Handled(log, c)
            case Some(e) => exists k: nat :: FirstRecovery(log, c, k) && log[k] == e
            case None => forall k | 0 <= k < |log| :: !IsRecovery(log[k], c)
  {
    if log != [] {
      var front := log[..|log| - 1];
      HandledIsFirst(front, c);
      if Handled(front, c).Some? {
        var k: nat :| FirstRecovery(front, c, k) && front[k] == Handled(front, c).value;
        assert FirstRecovery(log, c, k);
      } else if IsRecovery(log[|log| - 1], c) {
        assert forall j | 0 <= j < |front| :: front[j] == log[j];
        assert FirstRecovery(log, c, |log| - 1);
      } else {
        assert forall j | 0 <= j < |front| :: front[j] == log[j];
      }
    }
  }

  /** No recovery of the cause yet, or the task is in triage and the first one is a decision. */
  ghost predicate Open(d: Durable, c: Seq) {
    || (forall k | 0 <= k < |d.log| :: !IsRecovery(d.log[k], c))
    || (d.state == State.Triage && exists k: nat :: FirstRecovery(d.log, c, k) && d.log[k].Acted?)
  }

  lemma OpenIff(d: Durable, c: Seq)
    ensures Open(d, c) <==>
      Handled(d.log, c).None? || (Handled(d.log, c).value.Acted? && d.state == State.Triage)
  {
    HandledIsFirst(d.log, c);
    if Handled(d.log, c).Some? {
      var k: nat :| FirstRecovery(d.log, c, k) && d.log[k] == Handled(d.log, c).value;
      forall j: nat | FirstRecovery(d.log, c, j) ensures j == k {
      }
    }
  }

  /**
   With the lock free, a delivery of a recorded failure is let in exactly when the task is at work or in
   triage and its cause is open; it then finds the task in triage, and otherwise nothing happens.
   */
  lemma LetInIff(cfg: Config, steps: seq<Step>, c: Seq, live: bool)
    requires Run(cfg, steps).pc == Idle
    ensures var (s, t) := (Run(cfg, steps), Deliver(Run(cfg, steps), c, live));
      var d := s.durable;
      if IsSignal(d.log, c) && d.state in {Running, Verifying, Delivering, State.Triage} && Open(d, c)
      then && t.pc == Entered(c, live) && t.waiting == s.waiting && t.durable.state == State.Triage
           && t.durable.attempts == d.attempts && t.durable.retries == d.retries
           && t.durable.log == d.log + if d.state == State.Triage then [] else [Changed(d.state, State.Triage, c)]
      else t == s
  {
    RunsHaveShape(cfg, steps);
    OpenIff(Run(cfg, steps).durable, c);
  }

  // ---------------------------------------------------------------- from the failure to its retry

  /** A failure of the current attempt that its worker, or the check of its work, has just run into. */
  predicate Occurs(cfg: Config, d: Durable, t: Trigger, exitCode: int, e: Recovery.Evidence) {
    && d.attempts != [] && d.current + 1 == |d.attempts| && d.retries < cfg.maxRetries
    && match t
       case Exited =>
         cfg.crashRecovery && d.state == Running && exitCode != 0
         && forall i | 0 <= i < |d.log| && d.log[i].Signal? && d.log[i].attempt == d.current ::
              d.log[i].trigger !in {Recovery.Exited, Recovery.Stalled}
       case Incomplete =>
         cfg.protocolRecovery && d.state == Running && forall i | 0 <= i < |d.log| :: d.log[i] != PolicyApplied(true)
       case VerifyFailed | ArtifactFailed | InterfaceFailed =>
         cfg.publicRecovery && d.state in {Running, Verifying, Delivering}
         && (if e.failureClass != "" then e.failureClass else e.category) !in GIVEN_UP
       case _ => false
  }

  lemma OccurrenceIsReported(cfg: Config, s: System, t: Trigger, exitCode: int, e: Recovery.Evidence, g: Option<nat>)
    requires Occurs(cfg, s.durable, t, exitCode, e)
    ensures var (d, after) := (s.durable, Next(cfg, s, Report(t, exitCode, e, g)).durable);
      && after.log == d.log + [Signal(t, d.current, exitCode, e)]
      && after.state == d.state && after.retries == d.retries && |after.attempts| == |d.attempts|
      && (t == Recovery.Exited ==> Latest(after).failure == WorkerExit)
  {
  }

  /** With the lock free and budget left, such a failure, once reported and delivered, is retried. */
  lemma FailureIsRetried(cfg: Config, steps: seq<Step>, t: Trigger, exitCode: int, e: Recovery.Evidence,
                         g: Option<nat>, live: bool, os: seq<Oracle>)
    requires Run(cfg, steps).pc == Idle && |os| >= 13
    requires Occurs(cfg, Run(cfg, steps).durable, t, exitCode, e)
    ensures var s := Run(cfg, steps);
      var u := Carried(cfg, Deliver(Next(cfg, s, Report(t, exitCode, e, g)), |s.durable.log|, live), os);
      && u.pc == Idle && u.durable.state == Running && u.durable.retries == s.durable.retries + 1
      && |u.durable.attempts| == |s.durable.attempts| + 1 && u.durable.current == |s.durable.attempts|
      && Recoveries(u.durable.log, |s.durable.log|) == 1
  {
    var s := Run(cfg, steps);
    var entered := Deliver(Next(cfg, s, Report(t, exitCode, e, g)), |s.durable.log|, live);
    OccurrenceIsDelivered(cfg, steps, t, exitCode, e, g, live);
    RetryableIsRelaunched(cfg, entered, os);
  }

  /** The handler, let in for cause c, with the task of `reported` in triage for it. */
  ghost predicate LetIn(reported: System, entered: System, c: Seq, live: bool) {
    && Shape(entered) && entered.pc == Entered(c, live) && entered.durable.state == State.Triage
    && entered.durable.attempts == reported.durable.attempts && entered.durable.retries == reported.durable.retries
    && entered.durable.log == reported.durable.log + [Changed(reported.durable.state, State.Triage, c)]
    && Recoveries(reported.durable.log, c) == 0
  }

  /** A failure reported with the lock free while the task was at work is let in. */
  lemma ReportIsLetIn(cfg: Config, steps: seq<Step>, step: Step, live: bool)
    requires Run(cfg, steps).pc == Idle && step.Report?
    requires var (s, reported) := (Run(cfg, steps), Next(cfg, Run(cfg, steps), step));
      && |reported.durable.log| == |s.durable.log| + 1 && s.durable.log <= reported.durable.log
      && reported.durable.log[|s.durable.log|].Signal? && reported.durable.state in {Running, Verifying, Delivering}
    ensures var (s, reported) := (Run(cfg, steps), Next(cfg, Run(cfg, steps), step));
      LetIn(reported, Deliver(reported, |s.durable.log|, live), |s.durable.log|, live)
  {
    var s := Run(cfg, steps);
    var c, reported := |s.durable.log|, Next(cfg, s, step);
    assert (steps + [step])[..|steps|] == steps && Run(cfg, steps + [step]) == reported;
    RunsHaveShape(cfg, steps);
    RunsHaveShape(cfg, steps + [step]);
    ReportedIsOpen(cfg, s, reported, c);
    EnvironmentSpares(cfg, s, step);
    LetInIff(cfg, steps + [step], c, live);
    DeliverShape(reported, c, live);
  }

  lemma OccurrenceIsDelivered(cfg: Config, steps: seq<Step>, t: Trigger, exitCode: int, e: Recovery.Evidence,
                              g: Option<nat>, live: bool)
    requires Run(cfg, steps).pc == Idle && Occurs(cfg, Run(cfg, steps).durable, t, exitCode, e)
    ensures var (s, c) := (Run(cfg, steps), |Run(cfg, steps).durable.log|);
      var entered := Deliver(Next(cfg, s, Report(t, exitCode, e, g)), c, live);
      && Shape(entered) && entered.pc == Entered(c, live) && entered.durable.state == State.Triage
      && entered.durable.retries == s.durable.retries && |entered.durable.attempts| == |s.durable.attempts|
      && entered.durable.attempts != [] && IsSignal(entered.durable.log, c) && Retryable(cfg, entered.durable, c)
      && Recoveries(entered.durable.log, c) == 0
  {
    var s := Run(cfg, steps);
    var reported := Next(cfg, s, Report(t, exitCode, e, g));
    OccurrenceIsReported(cfg, s, t, exitCode, e, g);
    ReportIsLetIn(cfg, steps, Report(t, exitCode, e, g), live);
    StillRetryable(cfg, s.durable, Deliver(reported, |s.durable.log|, live).durable, t, exitCode, e);
    Append(reported.durable.log, Changed(s.durable.state, State.Triage, |s.durable.log|));
  }

  lemma ReportedIsOpen(cfg: Config, s: System, reported: System, c: Seq)
    requires Shape(s) && c == |s.durable.log|
    requires |reported.durable.log| == c + 1 && s.durable.log <= reported.durable.log
    requires reported.durable.log[c].Signal?
    ensures Open(reported.durable, c) && Recoveries(reported.durable.log, c) == 0
  {
    var before, log := s.durable.log, reported.durable.log;
    HandledIsFirst(before, c);
    HandledMeans(before, c);
    assert Recoveries(before, c) == 0 by {
      assert !IsSignal(before, c);
    }
    assert log == before + [log[c]];
    Append(before, log[c]);
  }

  lemma StillRetryable(cfg: Config, d: Durable, after: Durable, t: Trigger, exitCode: int, e: Recovery.Evidence)
    requires Occurs(cfg, d, t, exitCode, e)
    requires after.log == d.log + [Signal(t, d.current, exitCode, e)] + [Changed(d.state, State.Triage, |d.log|)]
    requires after.attempts != [] && after.retries == d.retries
    requires t == Recovery.Exited ==> Latest(after).failure == WorkerExit
    ensures IsSignal(after.log, |d.log|) && Retryable(cfg, after, |d.log|)
  {
  }

  /** A check of the current attempt fails the way enough earlier attempts failed, and nobody may retry it. */
  predicate Repeats(cfg: Config, d: Durable, t: Trigger, signature: nat) {
    && d.attempts != [] && d.current + 1 == |d.attempts| && d.state in {Verifying, Delivering}
    && t in {Recovery.VerifyFailed, Recovery.ArtifactFailed} && (!cfg.publicRecovery || d.retries >= cfg.maxRetries)
    && |Equals(d.attempts[..|d.attempts| - 1], signature)| >= cfg.repeatedThreshold
  }

  lemma RepetitionIsReported(cfg: Config, s: System, t: Trigger, e: Recovery.Evidence, signature: nat)
    requires Repeats(cfg, s.durable, t, signature)
    ensures var (d, after) := (s.durable, Next(cfg, s, Report(t, 0, e, Some(signature))).durable);
      && after.log == d.log + [Signal(t, d.current, 0, e)]
      && after.state == d.state && after.retries == d.retries && |after.attempts| == |d.attempts|
      && after.attempts[..|d.attempts| - 1] == d.attempts[..|d.attempts| - 1]
      && Latest(after).signature == Some(signature)
  {
  }

  /** With the lock free and the tree unchanged since, such a failure goes to a person. */
  lemma RepeatedFailureIsEscalated(cfg: Config, steps: seq<Step>, t: Trigger, e: Recovery.Evidence, signature: nat,
                                   live: bool, os: seq<Oracle>)
    requires Run(cfg, steps).pc == Idle && |os| >= 13 && !os[0].treeChanged
    requires Repeats(cfg, Run(cfg, steps).durable, t, signature)
    ensures var s := Run(cfg, steps);
      var u := Carried(cfg, Deliver(Next(cfg, s, Report(t, 0, e, Some(signature))), |s.durable.log|, live), os);
      && u.pc == Idle && u.durable.state == NeedsHuman && u.durable.retries == s.durable.retries
      && |u.durable.attempts| == |s.durable.attempts|
  {
    var s, step := Run(cfg, steps), Report(t, 0, e, Some(signature));
    var c, reported := |s.durable.log|, Next(cfg, s, step);
    RepetitionIsReported(cfg, s, t, e, signature);
    ReportIsLetIn(cfg, steps, step, live);
    var entered := Deliver(reported, c, live);
    RepetitionIsHopeless(cfg, s.durable, entered.durable, t, e, signature);
    StuckGoesToPerson(cfg, entered, os);
  }

  lemma RepetitionIsHopeless(cfg: Config, d: Durable, after: Durable, t: Trigger, e: Recovery.Evidence, signature: nat)
    requires Repeats(cfg, d, t, signature)
    requires after.log == d.log + [Signal(t, d.current, 0, e)] + [Changed(d.state, State.Triage, |d.log|)]
    requires |after.attempts| == |d.attempts| && after.retries == d.retries
    requires after.attempts[..|d.attempts| - 1] == d.attempts[..|d.attempts| - 1]
    requires Latest(after).signature == Some(signature)
    ensures IsSignal(after.log, |d.log|) && !Retryable(cfg, after, |d.log|) && Hopeless(cfg, after, false)
  {
  }

  /** A task found running without a process is put in triage for a cause that is let in, and not retried unasked. */
  lemma OrphanIsLetIn(cfg: Config, steps: seq<Step>, live: bool)
    requires var s := Run(cfg, steps);
      s.pc == Idle && s.durable.state == Running && s.durable.current < |s.durable.attempts|
    ensures var (s, c) := (Run(cfg, steps), |Run(cfg, steps).durable.log|);
      var after := Next(cfg, s, Reconcile);
      && after.durable.state == State.Triage && LastCause(after.durable.log) == Some(c)
      && after.durable.attempts[s.durable.current].failure == WorkerExit
      && Deliver(after, c, live) == after.(pc := Entered(c, live))
      && IsSignal(after.durable.log, c) && !Retryable(cfg, after.durable, c)
  {
    var s, c := Run(cfg, steps), |Run(cfg, steps).durable.log|;
    RunsHaveShape(cfg, steps);
    var signal := Signal(Recovery.Exited, s.durable.current, 0, Recovery.Evidence("", "", ""));
    FreshCauseIsOpen(s, signal, Changed(Running, State.Triage, c));
    assert Next(cfg, s, Reconcile).durable.log == s.durable.log + [signal] + [Changed(Running, State.Triage, c)];
  }

  /** No recovery names an event that is not on the log yet. */
  lemma FreshCauseIsOpen(s: System, signal: Event, change: Event)
    requires Shape(s) && signal.Signal? && change.Changed?
    ensures var log := s.durable.log + [signal] + [change];
      Handled(log, |s.durable.log|) == None && LastCause(log) == Some(change.cause)
  {
    var c := |s.durable.log|;
    assert !IsSignal(s.durable.log, c);
    HandledMeans(s.durable.log + [signal] + [change], c);
    Append(s.durable.log, signal);
    Append(s.durable.log + [signal], change);
  }

  // ---------------------------------------------------------------- what the menu keeps out of every run

  /** What a decision on the log says of the failure it decides. */
  predicate Proper(cfg: Config, log: Log, k: Seq)
    requires k < |log| && log[k].Acted?
  {
    && IsSignal(log, log[k].actedFor)
    && (log[k].action == Supervisor.Nudge ==> log[log[k].actedFor].trigger == Recovery.Asked)
    && (log[k].action == Supervisor.Wait ==> log[log[k].actedFor].trigger == Recovery.Stalled)
    && (log[k].action == Supervisor.Abandon ==> cfg.yolo)
  }

  /** Every decision is proper, the handler carries out such a one, and one protocol repair at most was made. */
  ghost predicate Lawful(cfg: Config, s: System) {
    var d := s.durable;
    && (forall k | 0 <= k < |d.log| && d.log[k].Acted? :: Proper(cfg, d.log, k))
    && ((s.pc.Decided? || s.pc.Closing? || s.pc.Dispatching?) && s.pc.action == Supervisor.Abandon ==> cfg.yolo)
    && (d.state == Failed ==> cfg.yolo)
    && ProtocolRepairs(d.log) <= 1
  }

  lemma OfferedIsProper(cfg: Config, d: Durable, after: Durable, c: Seq, live: bool, a: Action, i: nat)
    requires IsSignal(d.log, c) && after.log == d.log + [Acted(c, Offered(cfg, d, c, live, a), i)]
    ensures Proper(cfg, after.log, |d.log|)
  {
  }

  lemma ProperStays(cfg: Config, log: Log, more: Log)
    requires log <= more && forall k | 0 <= k < |log| && log[k].Acted? :: Proper(cfg, log, k)
    ensures forall k | 0 <= k < |log| && more[k].Acted? :: Proper(cfg, more, k)
  {
    forall k | 0 <= k < |log| && more[k].Acted? ensures Proper(cfg, more, k) {
      assert log[k] == more[k] && Proper(cfg, log, k);
    }
  }

  lemma EnterIsLawful(cfg: Config, s: System, o: Oracle)
    requires Lawful(cfg, s) && PcShape(s) && s.pc.Entered?
    ensures Lawful(cfg, Advance(cfg, s, o))
  {
    var d, c, after := s.durable, s.pc.cause, Advance(cfg, s, o).durable;
    HandlerWrites(cfg, s, o);
    ProperStays(cfg, d.log, after.log);
    PersistedIsNewest(d.log, c);
    if |after.log| > |d.log| {
      Append(d.log, after.log[|d.log|]);
    }
    RetryableIff(cfg, d, c);
    NoRepairs(d.log);
  }

  lemma AskingIsLawful(cfg: Config, s: System, o: Oracle)
    requires Lawful(cfg, s) && PcShape(s) && s.pc.Asking?
    ensures Lawful(cfg, Advance(cfg, s, o))
  {
    var d, after := s.durable, Advance(cfg, s, o).durable;
    ProperStays(cfg, d.log, after.log);
    OfferedIsProper(cfg, d, after, s.pc.cause, s.pc.live, o.answer, s.pc.intervention);
    Append(d.log, after.log[|d.log|]);
  }

  /** No decision and no policy is recorded, and the handler keeps to the action it carries. */
  predicate Follows(s: System, next: System) {
    var (d, after, n) := (s.durable, next.durable, |s.durable.log|);
    && (after.log == d.log || (|after.log| == n + 1 && after.log == d.log + [after.log[n]]
                               && !after.log[n].Acted? && !after.log[n].PolicyApplied?))
    && (after.state == Failed && d.state != Failed ==> s.pc.Dispatching? && s.pc.action == Supervisor.Abandon)
    && (next.pc.Decided? || next.pc.Closing? || next.pc.Dispatching?
        ==> (s.pc.Decided? || s.pc.Closing?) && next.pc.action == s.pc.action)
  }

  lemma LaunchFollows(cfg: Config, s: System, o: Oracle)
    requires TriageSafety.Launching(s.pc) || s.pc.Retrying? || s.pc.Recording? || s.pc == Idle
    ensures Follows(s, Advance(cfg, s, o))
  {
  }

  lemma OtherFollows(cfg: Config, s: System, o: Oracle)
    requires !s.pc.Entered? && !s.pc.Asking?
    ensures Follows(s, Advance(cfg, s, o))
  {
    if TriageSafety.Launching(s.pc) || s.pc.Retrying? || s.pc.Recording? || s.pc == Idle {
      LaunchFollows(cfg, s, o);
    }
  }

  lemma OtherIsLawful(cfg: Config, s: System, o: Oracle)
    requires Lawful(cfg, s) && !s.pc.Entered? && !s.pc.Asking?
    ensures Lawful(cfg, Advance(cfg, s, o))
  {
    var d, after := s.durable, Advance(cfg, s, o).durable;
    OtherFollows(cfg, s, o);
    ProperStays(cfg, d.log, after.log);
    if |after.log| > |d.log| {
      Append(d.log, after.log[|d.log|]);
    }
  }

  lemma EnvironmentIsLawful(cfg: Config, s: System, step: Step)
    requires Lawful(cfg, s) && Environment(step)
    ensures Lawful(cfg, Next(cfg, s, step))
  {
    var d, after := s.durable, Next(cfg, s, step).durable;
    EnvironmentIsQuiet(cfg, s, step);
    QuietKeeps(d.log, after.log);
    ProperStays(cfg, d.log, after.log);
    FailsOutsideNever(cfg, s, step);
  }

  lemma FailsOutsideNever(cfg: Config, s: System, step: Step)
    requires Environment(step)
    ensures Next(cfg, s, step).durable.state == Failed ==> s.durable.state == Failed
  {
  }

  lemma DeliverIsLawful(cfg: Config, s: System, c: Seq, live: bool)
    requires Lawful(cfg, s)
    ensures Lawful(cfg, Deliver(s, c, live))
  {
    var d, after := s.durable, Deliver(s, c, live).durable;
    ProperStays(cfg, d.log, after.log);
    if |after.log| > |d.log| {
      Append(d.log, after.log[|d.log|]);
    }
  }

  lemma {:induction false} RunsAreLawful(cfg: Config, steps: seq<Step>)
    ensures Lawful(cfg, Run(cfg, steps))
  {
    if steps != [] {
      var front, step := steps[..|steps| - 1], steps[|steps| - 1];
      var s := Run(cfg, front);
      RunsAreLawful(cfg, front);
      RunsHaveShape(cfg, front);
      match step
      case Handle(c, live) => DeliverIsLawful(cfg, s, c, live);
      case Continue(o) =>
        if s.pc.Entered? {
          EnterIsLawful(cfg, s, o);
        } else if s.pc.Asking? {
          AskingIsLawful(cfg, s, o);
        } else {
          OtherIsLawful(cfg, s, o);
        }
      case Crash =>
      case Abort =>
      case _ => EnvironmentIsLawful(cfg, s, step);
    }
  }

  /**
   Over every run and every supervisor: only a question is nudged, only a stall is waited out, nothing is
   abandoned and no task fails unless the menu was opened for it, and at most one protocol repair is made.
   */
  lemma MenuHolds(cfg: Config, steps: seq<Step>, k: Seq)
    ensures var d := Run(cfg, steps).durable;
      && (k < |d.log| && d.log[k].Acted? ==>
            && IsSignal(d.log, d.log[k].actedFor)
            && (d.log[k].action == Supervisor.Nudge ==> d.log[d.log[k].actedFor].trigger == Recovery.Asked)
            && (d.log[k].action == Supervisor.Wait ==> d.log[d.log[k].actedFor].trigger == Recovery.Stalled)
            && (d.log[k].action == Supervisor.Abandon ==> cfg.yolo))
      && (d.state == Failed ==> cfg.yolo)
      && |Repairs(d.log)| <= 1
  {
    RunsAreLawful(cfg, steps);
    RepairsCount(Run(cfg, steps).durable.log);
  }

  function Repairs(log: Log): set<nat> {
    set i: nat | i < |log| && log[i] == PolicyApplied(true)
  }

  lemma {:induction false} RepairsCount(log: Log)
    ensures |Repairs(log)| == ProtocolRepairs(log)
  {
    if log != [] {
      var last := |log| - 1;
      RepairsCount(log[..last]);
      assert Repairs(log) == Repairs(log[..last]) + if log[last] == PolicyApplied(true) then {last} else {};
    }
  }
}
