/** Failure classes and the one bounded recovery decision (recovery.py). */
module Recovery {
  import opened Wrappers

  datatype FailureClass =
    | WorkerCrash | ProtocolIncomplete | StartupFailure | SdkTimeout | TimeoutStall
    | UncommittedChanges | EmptyDiff | VisibleVerificationFailure | DeliveryFailure
    | RepeatedEquivalentFailure

  datatype RecoveryAction = RetryRetainedCandidate | Repair | RerunVerification | Escalate | Terminate

  /** The event types classify_failure knows; every other type falls to its default. */
  datatype Trigger =
    | Exited | Unclaimed | Stalled | TimedOut | Asked | Incomplete | StartupFailed | SdkTimedOut
    | VerifyFailed | ArtifactFailed | InterfaceFailed | DeliveryFailed

  /** The payload keys classify_failure reads; "" is an absent key. */
  datatype Evidence = Evidence(failureClass: string, category: string, cause: string)

  function ParseClass(s: string): Option<FailureClass> {
    if s == "worker_crash" then Some(WorkerCrash)
    else if s == "protocol_incomplete" then Some(ProtocolIncomplete)
    else if s == "startup_authentication_failure" then Some(StartupFailure)
    else if s == "sdk_timeout" then Some(SdkTimeout)
    else if s == "timeout_stall" then Some(TimeoutStall)
    else if s == "uncommitted_changes" then Some(UncommittedChanges)
    else if s == "empty_diff" then Some(EmptyDiff)
    else if s == "visible_verification_failure" then Some(VisibleVerificationFailure)
    else if s == "delivery_failure" then Some(DeliveryFailure)
    else if s == "repeated_equivalent_failure" then Some(RepeatedEquivalentFailure)
    else None
  }

  function ClassifyFailure(t: Trigger, e: Evidence): FailureClass {
    var explicit := ParseClass(if e.failureClass != "" then e.failureClass else e.category);
    if explicit.Some? then explicit.value
    else if t == VerifyFailed && (e.cause == "uncommitted_changes" || e.cause == "dirty_worktree")
    then UncommittedChanges
    else if t == VerifyFailed && e.cause == "empty_diff" then EmptyDiff
    else match t
      case Exited => WorkerCrash
      case Incomplete | Unclaimed => ProtocolIncomplete
      case Stalled | TimedOut => TimeoutStall
      case StartupFailed => StartupFailure
      case SdkTimedOut => SdkTimeout
      case DeliveryFailed => DeliveryFailure
      case _ => VisibleVerificationFailure
  }

  function ChooseRecovery(c: FailureClass, retries: int, maxRetries: int, protocolRetries: nat, equivalent: bool)
    : RecoveryAction
  {
    if equivalent then Escalate
    else match c
      case StartupFailure | SdkTimeout => Terminate
      case DeliveryFailure => Escalate
      case _ =>
        if retries >= maxRetries then Escalate
        else match c
          case ProtocolIncomplete => if protocolRetries >= 1 then Escalate else Repair
          case WorkerCrash | UncommittedChanges | EmptyDiff => RetryRetainedCandidate
          case VisibleVerificationFailure => Repair
          case _ => Escalate
  }

  predicate Relaunches(a: RecoveryAction) {
    a == Repair || a == RetryRetainedCandidate
  }

  /** A decision that does not relaunch stays so while retries and earlier repairs only grow. */
  lemma RefusalIsStable(c: FailureClass, retries: int, later: int, maxRetries: int, repairs: nat, more: nat,
                        equivalent: bool)
    requires retries <= later && repairs <= more
    ensures Relaunches(ChooseRecovery(c, later, maxRetries, more, equivalent))
            ==> Relaunches(ChooseRecovery(c, retries, maxRetries, repairs, equivalent))
    ensures Relaunches(ChooseRecovery(c, retries, maxRetries, repairs, equivalent)) ==> retries < maxRetries
  {
  }

  /** The value of the enumeration member, as events spell it. */
  function ClassName(c: FailureClass): string {
    match c
    case WorkerCrash => "worker_crash"
    case ProtocolIncomplete => "protocol_incomplete"
    case StartupFailure => "startup_authentication_failure"
    case SdkTimeout => "sdk_timeout"
    case TimeoutStall => "timeout_stall"
    case UncommittedChanges => "uncommitted_changes"
    case EmptyDiff => "empty_diff"
    case VisibleVerificationFailure => "visible_verification_failure"
    case DeliveryFailure => "delivery_failure"
    case RepeatedEquivalentFailure => "repeated_equivalent_failure"
  }

  lemma NamesAreRead(c: FailureClass)
    ensures ParseClass(ClassName(c)) == Some(c)
  {
  }

  /** Failures of the worker's session, apart from those of its result. */
  predicate OfSession(c: FailureClass) {
    c.WorkerCrash? || c.ProtocolIncomplete? || c.StartupFailure? || c.SdkTimeout? || c.TimeoutStall?
  }

  lemma SessionNamesAreRead(s: string)
    requires ParseClass(s).Some? && OfSession(ParseClass(s).value)
    ensures ClassName(ParseClass(s).value) == s
  {
  }

  lemma ResultNamesAreRead(s: string)
    requires ParseClass(s).Some? && !OfSession(ParseClass(s).value)
    ensures ClassName(ParseClass(s).value) == s
  {
  }

  lemma OnlyNamesAreRead(s: string)
    requires ParseClass(s).Some?
    ensures ClassName(ParseClass(s).value) == s
  {
    if OfSession(ParseClass(s).value) {
      SessionNamesAreRead(s);
    } else {
      ResultNamesAreRead(s);
    }
  }

  /** Reading a class is the inverse of spelling it; nothing else is read as a class. */
  lemma ParseClassInvertsName(s: string, c: FailureClass)
    ensures ParseClass(s) == Some(c) <==> s == ClassName(c)
  {
    NamesAreRead(c);
    if ParseClass(s).Some? {
      OnlyNamesAreRead(s);
    }
  }

  /** The class an event names for itself, if the word it uses is one. */
  ghost predicate NamesClass(e: Evidence, c: FailureClass) {
    (if e.failureClass != "" then e.failureClass else e.category) == ClassName(c)
  }

  lemma NamedIsParsed(e: Evidence, c: FailureClass)
    ensures NamesClass(e, c) <==> ParseClass(if e.failureClass != "" then e.failureClass else e.category) == Some(c)
  {
    ParseClassInvertsName(if e.failureClass != "" then e.failureClass else e.category, c);
  }

  /** The class by type and by the cause of a failed check. */
  predicate OfKind(t: Trigger, e: Evidence, c: FailureClass) {
    match c
    case WorkerCrash => t == Exited
    case ProtocolIncomplete => t in {Incomplete, Unclaimed}
    case StartupFailure => t == StartupFailed
    case SdkTimeout => t == SdkTimedOut
    case TimeoutStall => t in {Stalled, TimedOut}
    case UncommittedChanges => t == VerifyFailed && e.cause in {"uncommitted_changes", "dirty_worktree"}
    case EmptyDiff => t == VerifyFailed && e.cause == "empty_diff"
    case DeliveryFailure => t == DeliveryFailed
    case RepeatedEquivalentFailure => false
    case VisibleVerificationFailure =>
      t in {ArtifactFailed, InterfaceFailed, Asked}
      || (t == VerifyFailed && e.cause !in {"uncommitted_changes", "dirty_worktree", "empty_diff"})
  }

  lemma UnnamedIsOfKind(t: Trigger, e: Evidence, c: FailureClass)
    requires ParseClass(if e.failureClass != "" then e.failureClass else e.category).None?
    ensures ClassifyFailure(t, e) == c <==> OfKind(t, e, c)
  {
  }

  /** An event that names a class has it; the others are told apart by type and by the cause of a failed check. */
  lemma ClassifiedIff(t: Trigger, e: Evidence, c: FailureClass)
    ensures NamesClass(e, c) ==> ClassifyFailure(t, e) == c
    ensures (forall d :: !NamesClass(e, d)) ==> (ClassifyFailure(t, e) == c <==> OfKind(t, e, c))
  {
    var named := ParseClass(if e.failureClass != "" then e.failureClass else e.category);
    NamedIsParsed(e, c);
    if named.Some? {
      NamedIsParsed(e, named.value);
    } else {
      UnnamedIsOfKind(t, e, c);
    }
  }

  /** When each action is taken: everything else, and every repetition, goes to a person. */
  lemma ActionIff(c: FailureClass, retries: int, maxRetries: int, repairs: nat, equivalent: bool)
    ensures var a := ChooseRecovery(c, retries, maxRetries, repairs, equivalent);
      && (a == Terminate <==> !equivalent && c in {StartupFailure, SdkTimeout})
      && (a == RetryRetainedCandidate
          <==> !equivalent && retries < maxRetries && c in {WorkerCrash, UncommittedChanges, EmptyDiff})
      && (a == Repair
          <==> !equivalent && retries < maxRetries
               && (c == VisibleVerificationFailure || (c == ProtocolIncomplete && repairs == 0)))
      && a != RerunVerification
  {
  }

  /** From the event to the relaunch: which failures are retried without the supervisor, budget permitting. */
  lemma RelaunchedIff(t: Trigger, e: Evidence, retries: int, maxRetries: int, repairs: nat, equivalent: bool)
    ensures Relaunches(ChooseRecovery(ClassifyFailure(t, e), retries, maxRetries, repairs, equivalent))
      <==> && !equivalent && retries < maxRetries
           && if exists c :: NamesClass(e, c)
              then exists c :: NamesClass(e, c)
                     && (c in {WorkerCrash, UncommittedChanges, EmptyDiff, VisibleVerificationFailure}
                         || (c == ProtocolIncomplete && repairs == 0))
              else t in {Exited, VerifyFailed, ArtifactFailed, InterfaceFailed, Asked}
                   || (t in {Incomplete, Unclaimed} && repairs == 0)
  {
    var c := ClassifyFailure(t, e);
    ClassifiedIff(t, e, c);
    ActionIff(c, retries, maxRetries, repairs, equivalent);
    if d :| NamesClass(e, d) {
      ClassifiedIff(t, e, d);
      forall d | NamesClass(e, d) ensures d == c {
        ClassifiedIff(t, e, d);
      }
    }
  }
}
