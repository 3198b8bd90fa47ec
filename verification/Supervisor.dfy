/** The supervisor's menu (supervisor/actions.py), computed before the supervisor is asked. */
module Supervisor {
  import opened Recovery

  datatype Action = Nudge | Restart | Wait | EscalateHuman | Abandon

  /** compute_allowed_actions, branch by branch. */
  method ComputeAllowedActions(t: Trigger, nudgesRemaining: nat, retriesRemaining: nat, yolo: bool, live: bool)
    returns (actions: seq<Action>)
    ensures forall a :: a in actions <==> Allowed(a, t, nudgesRemaining, retriesRemaining, yolo, live)
  {
    if retriesRemaining <= 0 {
      return if yolo then [EscalateHuman, Abandon] else [EscalateHuman];
    }
    actions := [Restart, EscalateHuman];
    if live {
      if t == Stalled {
        actions := actions + [Wait];
      } else if t == Asked && nudgesRemaining > 0 {
        actions := actions + [Nudge];
      }
    }
    if yolo {
      actions := actions + [Abandon];
    }
  }

  /** What the menu promises about each action. */
  predicate Allowed(a: Action, t: Trigger, nudgesRemaining: nat, retriesRemaining: nat, yolo: bool, live: bool) {
    match a
    case EscalateHuman => true
    case Abandon => yolo
    case Restart => retriesRemaining > 0
    case Wait => retriesRemaining > 0 && live && t == Stalled
    case Nudge => retriesRemaining > 0 && live && t == Asked && nudgesRemaining > 0
  }
}
