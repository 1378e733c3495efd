/** Turning events into alerts (internal/roles/roles.go). */
module Alerts {
  import opened Logs
  import opened RollingWindow
  import opened AlertMachine
  import opened AlertTheorems

  datatype Alert = Alert(role: string, state: string, consecutiveFailures: nat)

  /** The alert dispatched for an event. A recovery reports no failures whatever
      counter the caller passes. */
  function DispatchEvent(role: string, ev: Event, consecutive: nat): Option<Alert> {
    match ev
    case AlertUnhealthy => Some(Alert(role, "UNHEALTHY", consecutive))
    case RecoveryHealthy => Some(Alert(role, "HEALTHY", 0))
    case NoEvent => None
  }

  /** A recovery only ever comes with a passing check, in both trigger modes. */
  lemma RecoveryMeansSuccess(cfg: Config, pct: Percent, log: seq<bool>, success: bool)
    requires EventOn(cfg, pct, log, success) == RecoveryHealthy
    ensures success
  {
    if cfg.trigger == TriggerAvailability {
      CauseOfEvent(cfg, pct, log, success);
    }
  }

  /** The alert owed when the newest check of a log changed the unit's state,
      read off the log alone. */
  function AlertFor(role: string, cfg: Config, pct: Percent, log: seq<bool>): Alert {
    Alert(role, if Failing(cfg, pct, log) then "UNHEALTHY" else "HEALTHY", TrailingFailures(log))
  }

  /** On every run an alert is dispatched exactly when the newest check changed
      whether the log is failing; it names the new state and counts the failures
      the log ends with, although recoveries hard-code the counter. */
  lemma AlertsAreTruthful(role: string, cfg: Config, pct: Percent, log: seq<bool>, success: bool)
    ensures var alert := DispatchEvent(role, EventOn(cfg, pct, log, success), After(cfg, pct, log + [success]).consecutive);
            && (alert.None? <==> (Failing(cfg, pct, log) <==> Failing(cfg, pct, log + [success])))
            && (alert.Some? ==>
                  && alert.value.role == role
                  && alert.value.state == (if Failing(cfg, pct, log + [success]) then "UNHEALTHY" else "HEALTHY")
                  && alert.value.consecutiveFailures == TrailingFailures(log + [success]))
  {
    hide After, EventOn, Failing;
    EventIsStateChange(cfg, pct, log, success);
    StateClosedForm(cfg, pct, log);
    StateClosedForm(cfg, pct, log + [success]);
    TrailingPush(log, success);
    if EventOn(cfg, pct, log, success) == RecoveryHealthy {
      RecoveryMeansSuccess(cfg, pct, log, success);
    }
  }

  /** The alerts owed for a whole log. */
  function AlertLog(role: string, cfg: Config, pct: Percent, log: seq<bool>): seq<Alert> {
    if log == [] then []
    else
      var init := log[..|log| - 1];
      AlertLog(role, cfg, pct, init)
      + if Failing(cfg, pct, log) == Failing(cfg, pct, init) then [] else [AlertFor(role, cfg, pct, log)]
  }

  /** One more check adds exactly the alert that is dispatched for it. */
  lemma AlertLogPush(role: string, cfg: Config, pct: Percent, log: seq<bool>, success: bool)
    ensures AlertLog(role, cfg, pct, log + [success]) ==
            AlertLog(role, cfg, pct, log)
            + match DispatchEvent(role, EventOn(cfg, pct, log, success), After(cfg, pct, log + [success]).consecutive)
              case None => []
              case Some(alert) => [alert]
  {
    hide After, EventOn, Failing, TrailingFailures, DispatchEvent;
    assert (log + [success])[..|log|] == log;
    AlertsAreTruthful(role, cfg, pct, log, success);
  }
}
