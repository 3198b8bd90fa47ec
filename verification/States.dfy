/** The task state machine (store/events.py). */
module States {
  datatype State =
    | Blocked | Queued | Running | Verifying | Triage | NeedsHuman
    | Delivering | Delivered | Failed | Cancelled | DependencyBlocked

  const TERMINAL: set<State> := {Delivered, Failed, Cancelled, DependencyBlocked}

  const TRANSITIONS: set<(State, State)> := {
    (Blocked, Queued), (Queued, Running), (Running, Verifying), (Running, Triage),
    (Verifying, Delivering), (Verifying, Triage), (Triage, Running), (Triage, NeedsHuman),
    (Triage, Failed), (NeedsHuman, Running), (NeedsHuman, Queued), (NeedsHuman, Delivering),
    (Delivering, Delivered), (Delivering, Triage), (Blocked, DependencyBlocked)
  }

  predicate Legal(frm: State, to: State) {
    frm !in TERMINAL && (to == Cancelled || (frm, to) in TRANSITIONS)
  }
}
