/** The alert state machine (internal/monitor/statemachine.go): a value-level
    automaton, and the class that the program updates in place. */
module AlertMachine {
  import Circular
  import opened Logs
  import opened RollingWindow

  datatype Event = NoEvent | AlertUnhealthy | RecoveryHealthy
  datatype State = Healthy | Unhealthy
  datatype Trigger = TriggerConsecutive | TriggerAvailability

  datatype Config = Config(failureThreshold: int, windowSize: int, trigger: Trigger, minAvailability: real) {
    /** The failure threshold after the constructor's clamp. */
    function Threshold(): (t: nat)
      ensures t >= 1 && t >= failureThreshold && (t == 1 || t == failureThreshold)
    {
      if failureThreshold < 1 then 1 else failureThreshold
    }

    predicate HasWindow() {
      windowSize > 0
    }
  }

  /** What a machine remembers. `window` stays empty when no window is configured. */
  datatype Snapshot = Snapshot(state: State, consecutive: nat, window: seq<bool>)

  const INITIAL := Snapshot(Healthy, 0, [])

  function TransitionConsecutive(cfg: Config, m: Snapshot, success: bool): (State, Event) {
    if success then
      if m.state == Unhealthy then (Healthy, RecoveryHealthy) else (m.state, NoEvent)
    else if m.state == Healthy && m.consecutive >= cfg.Threshold() then (Unhealthy, AlertUnhealthy)
    else (m.state, NoEvent)
  }

  function TransitionAvailability(cfg: Config, pct: Percent, m: Snapshot): (State, Event) {
    if !cfg.HasWindow() || |m.window| < cfg.windowSize then (m.state, NoEvent)
    else
      var avail := Availability(pct, m.window);
      if m.state == Healthy && avail < cfg.minAvailability then (Unhealthy, AlertUnhealthy)
      else if m.state == Unhealthy && avail >= cfg.minAvailability then (Healthy, RecoveryHealthy)
      else (m.state, NoEvent)
  }

  /** The counter and window after one check, before any transition. */
  function Record(cfg: Config, m: Snapshot, success: bool): Snapshot {
    Snapshot(m.state,
             if success then 0 else m.consecutive + 1,
             if cfg.HasWindow() then LastN(m.window + [success], cfg.windowSize) else m.window)
  }

  function Step(cfg: Config, pct: Percent, m: Snapshot, success: bool): (Snapshot, Event) {
    var recorded := Record(cfg, m, success);
    var (state, ev) := if cfg.trigger == TriggerAvailability
                       then TransitionAvailability(cfg, pct, recorded)
                       else TransitionConsecutive(cfg, recorded, success);
    (recorded.(state := state), ev)
  }

  /** The event that announces a move between two states. */
  function Change(before: State, after: State): Event {
    if before == after then NoEvent else if after == Unhealthy then AlertUnhealthy else RecoveryHealthy
  }

  /** A step emits exactly the change of state it makes. */
  lemma StepChanges(cfg: Config, pct: Percent, m: Snapshot, success: bool)
    ensures var (m', ev) := Step(cfg, pct, m, success); ev == Change(m.state, m'.state)
  {
    hide Availability, LastN;
  }

  /** The state a step moves to depends on what it recorded alone, except while
      a window is filling. */
  lemma StepMeaning(cfg: Config, pct: Percent, m: Snapshot, success: bool)
    requires cfg.trigger == TriggerConsecutive ==> (m.state == Unhealthy <==> m.consecutive >= cfg.Threshold())
    ensures var m' := Step(cfg, pct, m, success).0;
            && m' == Record(cfg, m, success).(state := m'.state)
            && (m'.state == Unhealthy <==>
                  if cfg.trigger == TriggerConsecutive then m'.consecutive >= cfg.Threshold()
                  else if !cfg.HasWindow() || |m'.window| < cfg.windowSize then m.state == Unhealthy
                  else Availability(pct, m'.window) < cfg.minAvailability)
  {
    hide Availability, LastN;
  }

  /** The machine after a whole log of outcomes. */
  function After(cfg: Config, pct: Percent, log: seq<bool>): Snapshot {
    if log == [] then INITIAL
    else Step(cfg, pct, After(cfg, pct, log[..|log| - 1]), log[|log| - 1]).0
  }

  /** The event emitted when `success` arrives after `log`. */
  function EventOn(cfg: Config, pct: Percent, log: seq<bool>, success: bool): Event {
    Step(cfg, pct, After(cfg, pct, log), success).1
  }

  lemma AfterPush(cfg: Config, pct: Percent, log: seq<bool>, success: bool)
    ensures After(cfg, pct, log + [success]) == Step(cfg, pct, After(cfg, pct, log), success).0
  {
    assert (log + [success])[..|log|] == log;
  }

  /** A check outcome and the clock reading taken when it was observed. */
  datatype Observation = Observation(success: bool, at: int)

  function Outcomes(log: seq<Observation>): (s: seq<bool>)
    ensures |s| == |log|
  {
    seq(|log|, i requires 0 <= i < |log| => log[i].success)
  }

  /** The clock reading of the newest success, if there was one. */
  function LastSuccess(log: seq<Observation>): (t: Option<int>)
    ensures t.None? <==> forall i :: 0 <= i < |log| ==> !log[i].success
    ensures t.Some? ==> exists i :: 0 <= i < |log| && log[i] == Observation(true, t.value)
                                    && forall k :: i < k < |log| ==> !log[k].success
  {
    if log == [] then None
    else if log[|log| - 1].success then Some(log[|log| - 1].at)
    else LastSuccess(log[..|log| - 1])
  }

  lemma ObservationPush(log: seq<Observation>, o: Observation)
    ensures Outcomes(log + [o]) == Outcomes(log) + [o.success]
    ensures LastSuccess(log + [o]) == if o.success then Some(o.at) else LastSuccess(log)
  {
    assert (log + [o])[..|log|] == log;
  }

  class StateMachine {
    const failureThreshold: int
    const trigger: Trigger
    const minAvailability: real
    const window: Window?
    const pct: Percent

    var state: State
    var consecutive: nat
    var lastSuccess: Option<int>

    ghost const cfg: Config
    ghost var log: seq<Observation>  // every check ever observed

    ghost function Repr(): set<object> {
      {this} + if window == null then {} else {window, window.buf}
    }

    /** The parts fixed at construction, and a consistent window. */
    ghost predicate Configured()
      reads Repr()
    {
      && failureThreshold == cfg.Threshold()
      && trigger == cfg.trigger && minAvailability == cfg.minAvailability
      && (window != null <==> cfg.HasWindow())
      && (window != null ==> window.Valid() && window.size == cfg.windowSize)
    }

    ghost function Held(): seq<bool>
      reads Repr()
    {
      if window == null then [] else LastN(window.log, window.size)
    }

    /** Whatever was observed, the fields hold what the automaton computes. */
    ghost predicate Valid()
      reads Repr()
    {
      && Configured()
      && (window != null ==> window.log == Outcomes(log))
      && Snapshot(state, consecutive, Held()) == After(cfg, pct, Outcomes(log))
      && lastSuccess == LastSuccess(log)
    }

    lemma FieldsMean()
      requires Valid()
      ensures var m := After(cfg, pct, Outcomes(log));
              state == m.state && consecutive == m.consecutive && lastSuccess == LastSuccess(log)
      ensures window != null <==> cfg.HasWindow()
    {
    }

    constructor (cfg: Config, pct: Percent)
      ensures Valid() && fresh(Repr())
      ensures this.cfg == cfg && this.pct == pct && log == []
    {
      var w: Window? := null;
      if cfg.windowSize > 0 {
        w := new Window(cfg.windowSize);
      }
      failureThreshold := if cfg.failureThreshold < 1 then 1 else cfg.failureThreshold;
      trigger, minAvailability := cfg.trigger, cfg.minAvailability;
      window, this.pct := w, pct;
      state, consecutive, lastSuccess := Healthy, 0, None;
      this.cfg, log := cfg, [];
    }

    /** One check. `now` is the clock reading the source takes on success. */
    method Observe(success: bool, now: int) returns (ev: Event)
      requires Valid()
      modifies Repr()
      ensures Valid()
      ensures log == old(log) + [Observation(success, now)]
      ensures ev == EventOn(cfg, pct, Outcomes(old(log)), success)
    {
      hide After, Outcomes, LastSuccess, LastN, TransitionAvailability, TransitionConsecutive, Circular.Held, CountTrue;
      ObservationPush(log, Observation(success, now));
      AfterPush(cfg, pct, Outcomes(log), success);
      Count(success, now);
      if trigger == TriggerAvailability {
        ev := DoTransitionAvailability();
      } else {
        ev := DoTransitionConsecutive(success);
      }
      log := log + [Observation(success, now)];
    }

    /** The part of Observe that both trigger modes share. */
    method Count(success: bool, now: int)
      requires Configured()
      modifies Repr() - {this}, `consecutive, `lastSuccess
      ensures Configured()
      ensures window != null ==> window.log == old(window.log) + [success]
      ensures lastSuccess == if success then Some(now) else old(lastSuccess)
      ensures Snapshot(state, consecutive, Held()) ==
              Record(cfg, Snapshot(state, old(consecutive), old(Held())), success)
    {
      hide After, Circular.Held, CountTrue, Outcomes;
      if success {
        consecutive := 0;
        lastSuccess := Some(now);
      } else {
        consecutive := consecutive + 1;
      }
      if window != null {
        LastNAbsorbs(window.log, success, window.size);
        window.Add(success);
      }
    }

    method DoTransitionConsecutive(success: bool) returns (ev: Event)
      requires Configured()
      modifies `state
      ensures (state, ev) == TransitionConsecutive(cfg, Snapshot(old(state), consecutive, Held()), success)
    {
      if success {
        if state == Unhealthy {
          state := Healthy;
          return RecoveryHealthy;
        }
        return NoEvent;
      }
      if state == Healthy && consecutive >= failureThreshold {
        state := Unhealthy;
        return AlertUnhealthy;
      }
      return NoEvent;
    }

    method DoTransitionAvailability() returns (ev: Event)
      requires Configured()
      modifies `state
      ensures (state, ev) == TransitionAvailability(cfg, pct, Snapshot(old(state), consecutive, Held()))
    {
      if window == null || !window.Full() {
        return NoEvent;
      }
      var avail := window.ReportAvailability(pct);
      if state == Healthy && avail < minAvailability {
        state := Unhealthy;
        return AlertUnhealthy;
      }
      if state == Unhealthy && avail >= minAvailability {
        state := Healthy;
        return RecoveryHealthy;
      }
      return NoEvent;
    }

    /** The published availability: 100 when no window is configured. */
    method ReportAvailability() returns (a: real)
      requires Valid()
      ensures a == Availability(pct, After(cfg, pct, Outcomes(log)).window)
    {
      if window == null {
        return 100.0;
      }
      a := window.ReportAvailability(pct);
    }
  }
}
