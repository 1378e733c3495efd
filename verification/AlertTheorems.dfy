/** What holds of the alert machine on every run, in both trigger modes. */
module AlertTheorems {
  import opened Logs
  import opened RollingWindow
  import opened AlertMachine

  /** The newest outcomes fill the window and their availability is too low. */
  predicate BelowMinimum(cfg: Config, pct: Percent, log: seq<bool>) {
    && cfg.HasWindow() && |log| >= cfg.windowSize
    && pct(CountTrue(LastN(log, cfg.windowSize)), cfg.windowSize) < cfg.minAvailability
  }

  /** The condition that decides the state, read off the log alone. */
  predicate Failing(cfg: Config, pct: Percent, log: seq<bool>) {
    if cfg.trigger == TriggerAvailability then BelowMinimum(cfg, pct, log)
    else TrailingFailures(log) >= cfg.Threshold()
  }

  /** The counter and the window show the tail of the log. */
  predicate Remembers(cfg: Config, m: Snapshot, log: seq<bool>) {
    && m.consecutive == TrailingFailures(log)
    && m.window == if cfg.HasWindow() then LastN(log, cfg.windowSize) else []
  }

  lemma RecordRemembers(cfg: Config, m: Snapshot, log: seq<bool>, success: bool)
    requires Remembers(cfg, m, log)
    ensures Remembers(cfg, Record(cfg, m, success), log + [success])
  {
    hide TrailingFailures, LastN;
    TrailingPush(log, success);
    if cfg.HasWindow() {
      LastNAbsorbs(log, success, cfg.windowSize);
    }
  }

  lemma StepDecides(cfg: Config, pct: Percent, m: Snapshot, log: seq<bool>, success: bool)
    requires Remembers(cfg, m, log) && (m.state == Unhealthy <==> Failing(cfg, pct, log))
    ensures var m' := Step(cfg, pct, m, success).0;
            && Remembers(cfg, m', log + [success])
            && (m'.state == Unhealthy <==> Failing(cfg, pct, log + [success]))
  {
    hide Step, Record, TrailingFailures, CountTrue;
    StepMeaning(cfg, pct, m, success);
    RecordRemembers(cfg, m, log, success);
  }

  /** The state is a function of the log's tail, however the machine got there. */
  lemma {:induction false} StateClosedForm(cfg: Config, pct: Percent, log: seq<bool>)
    ensures var m := After(cfg, pct, log);
            && (m.state == Unhealthy <==> Failing(cfg, pct, log))
            && Remembers(cfg, m, log)
  {
    if log == [] {
      Untouched(cfg, pct);
    } else {
      hide Step, Remembers, Failing;
      var init, last := log[..|log| - 1], log[|log| - 1];
      StateClosedForm(cfg, pct, init);
      StepDecides(cfg, pct, After(cfg, pct, init), init, last);
      assert log == init + [last];
    }
  }

  lemma Untouched(cfg: Config, pct: Percent)
    ensures After(cfg, pct, []) == INITIAL && Remembers(cfg, INITIAL, []) && !Failing(cfg, pct, [])
  {
  }

  /** An event is exactly a change of state, named after the state entered. */
  lemma EventIsStateChange(cfg: Config, pct: Percent, log: seq<bool>, success: bool)
    ensures EventOn(cfg, pct, log, success) ==
            Change(After(cfg, pct, log).state, After(cfg, pct, log + [success]).state)
  {
    hide Step, After;
    AfterPush(cfg, pct, log, success);
    StepChanges(cfg, pct, After(cfg, pct, log), success);
  }

  // ----- the event history of a run -----

  /** The event emitted at each check of a run. */
  function Events(cfg: Config, pct: Percent, log: seq<bool>): (evs: seq<Event>)
    ensures |evs| == |log|
  {
    if log == [] then []
    else
      var init := log[..|log| - 1];
      Events(cfg, pct, init) + [EventOn(cfg, pct, init, log[|log| - 1])]
  }

  lemma EventsPush(cfg: Config, pct: Percent, log: seq<bool>, success: bool)
    ensures Events(cfg, pct, log + [success]) == Events(cfg, pct, log) + [EventOn(cfg, pct, log, success)]
  {
    assert (log + [success])[..|log|] == log;
  }

  /** The events that cause a notification, in order. */
  function Signals(evs: seq<Event>): seq<Event> {
    if evs == [] then []
    else
      var rest := Signals(evs[..|evs| - 1]);
      if evs[|evs| - 1] == NoEvent then rest else rest + [evs[|evs| - 1]]
  }

  function CountOf(evs: seq<Event>, e: Event): nat {
    if evs == [] then 0 else CountOf(evs[..|evs| - 1], e) + if evs[|evs| - 1] == e then 1 else 0
  }

  /** The state rebuilt from the notifications alone. */
  function Replay(signals: seq<Event>): State {
    if signals != [] && signals[|signals| - 1] == AlertUnhealthy then Unhealthy else Healthy
  }

  lemma SignalsPush(evs: seq<Event>, e: Event)
    ensures Signals(evs + [e]) == Signals(evs) + if e == NoEvent then [] else [e]
  {
    assert (evs + [e])[..|evs|] == evs;
  }

  lemma CountOfPush(evs: seq<Event>, e: Event, x: Event)
    ensures CountOf(evs + [e], x) == CountOf(evs, x) + if e == x then 1 else 0
  {
    assert (evs + [e])[..|evs|] == evs;
  }

  lemma LastEvent(cfg: Config, pct: Percent, log: seq<bool>)
    requires log != []
    ensures var init := log[..|log| - 1];
            Events(cfg, pct, log) ==
            Events(cfg, pct, init) + [Change(After(cfg, pct, init).state, After(cfg, pct, log).state)]
  {
    var init := log[..|log| - 1];
    assert log == init + [log[|log| - 1]];
    EventIsStateChange(cfg, pct, init, log[|log| - 1]);
  }

  /** Alert, recovery, alert, and so on. */
  predicate Alternating(signals: seq<Event>) {
    forall i :: 0 <= i < |signals| ==> signals[i] == if i % 2 == 0 then AlertUnhealthy else RecoveryHealthy
  }

  /** Notifications alternate starting with an alert, alerts lead recoveries by
      one exactly while unhealthy, and the notifications determine the state. */
  lemma {:induction false} NotificationsAlternate(cfg: Config, pct: Percent, log: seq<bool>)
    ensures var evs, state := Events(cfg, pct, log), After(cfg, pct, log).state;
            && Alternating(Signals(evs))
            && Replay(Signals(evs)) == state
            && |Signals(evs)| == CountOf(evs, AlertUnhealthy) + CountOf(evs, RecoveryHealthy)
            && CountOf(evs, AlertUnhealthy) == CountOf(evs, RecoveryHealthy) + if state == Unhealthy then 1 else 0
  {
    if log != [] {
      var init := log[..|log| - 1];
      NotificationsAlternate(cfg, pct, init);
      LastEvent(cfg, pct, log);
      ChangeExtendsHistory(Events(cfg, pct, init), After(cfg, pct, init).state, After(cfg, pct, log).state);
    }
  }

  lemma ChangeExtendsHistory(evs: seq<Event>, before: State, after: State)
    requires Alternating(Signals(evs)) && Replay(Signals(evs)) == before
    ensures var evs' := evs + [Change(before, after)];
            && Alternating(Signals(evs'))
            && Replay(Signals(evs')) == after
            && |Signals(evs')| == |Signals(evs)| + (if before == after then 0 else 1)
            && CountOf(evs', AlertUnhealthy) ==
               CountOf(evs, AlertUnhealthy) + (if before == Healthy && after == Unhealthy then 1 else 0)
            && CountOf(evs', RecoveryHealthy) ==
               CountOf(evs, RecoveryHealthy) + (if before == Unhealthy && after == Healthy then 1 else 0)
  {
    var e := Change(before, after);
    SignalsPush(evs, e);
    CountOfPush(evs, e, AlertUnhealthy);
    CountOfPush(evs, e, RecoveryHealthy);
    if before != after {
      AlternatingPush(Signals(evs), after);
    }
  }

  lemma AlternatingPush(signals: seq<Event>, after: State)
    requires Alternating(signals) && Replay(signals) != after
    ensures Alternating(signals + [Change(Replay(signals), after)])
    ensures Replay(signals + [Change(Replay(signals), after)]) == after
  {
    var n := |signals|;
    if n > 0 {
      assert signals[n - 1] == if (n - 1) % 2 == 0 then AlertUnhealthy else RecoveryHealthy;
    }
  }

  // ----- consecutive mode: one alert per long enough outage -----

  /** The lengths of the failure runs that successes cut a log into. */
  function Outages(log: seq<bool>): (runs: seq<nat>)
    ensures runs != []
    ensures runs[|runs| - 1] == TrailingFailures(log)
  {
    if log == [] then [0]
    else
      var runs := Outages(log[..|log| - 1]);
      if log[|log| - 1] then runs + [0]
      else runs[..|runs| - 1] + [runs[|runs| - 1] + 1]
  }

  function Repeat(b: bool, k: nat): (s: seq<bool>)
    ensures |s| == k && forall i :: 0 <= i < k ==> s[i] == b
  {
    seq(k, i => b)
  }

  lemma RepeatPush(log: seq<bool>, b: bool, k: nat)
    requires k > 0
    ensures log + Repeat(b, k) == (log + Repeat(b, k - 1)) + [b]
  {
  }

  /** The log with the given failure runs, separated by single successes. */
  function Render(runs: seq<nat>): seq<bool> {
    if |runs| == 0 then []
    else if |runs| == 1 then Repeat(false, runs[0])
    else Render(runs[..|runs| - 1]) + [true] + Repeat(false, runs[|runs| - 1])
  }

  lemma RenderLast(runs: seq<nat>, k: nat)
    ensures Render(runs + [k]) == (if runs == [] then [] else Render(runs) + [true]) + Repeat(false, k)
  {
    hide Repeat;
    assert (runs + [k])[..|runs|] == runs;
  }

  /** Another failure only lengthens the last run. */
  lemma RenderGrows(runs: seq<nat>, k: nat)
    ensures Render(runs + [k + 1]) == Render(runs + [k]) + [false]
  {
    hide Render, Repeat;
    RenderLast(runs, k);
    RenderLast(runs, k + 1);
    RepeatPush([], false, k + 1);
    assert [] + Repeat(false, k) == Repeat(false, k);
  }

  lemma RenderSeparates(runs: seq<nat>)
    requires runs != []
    ensures Render(runs + [0]) == Render(runs) + [true]
  {
    RenderLast(runs, 0);
  }

  /** `Outages` loses nothing: the log can be rebuilt from it. */
  lemma {:induction false} OutagesRoundTrip(log: seq<bool>)
    ensures Render(Outages(log)) == log
  {
    hide Render, TrailingFailures;
    if log == [] {
      RenderNothing();
    } else {
      var init := log[..|log| - 1];
      var runs := Outages(init);
      OutagesRoundTrip(init);
      assert runs == runs[..|runs| - 1] + [runs[|runs| - 1]];
      RenderGrows(runs[..|runs| - 1], runs[|runs| - 1]);
      RenderSeparates(runs);
      assert log == init + [log[|log| - 1]];
    }
  }

  lemma RenderNothing()
    ensures Render([0]) == []
  {
  }

  function CountAtLeast(runs: seq<nat>, t: nat): nat {
    if runs == [] then 0 else CountAtLeast(runs[..|runs| - 1], t) + if runs[|runs| - 1] >= t then 1 else 0
  }

  /** Alerts over a run are counted by its long enough outages. */
  lemma {:induction false} OneAlertPerOutage(cfg: Config, pct: Percent, log: seq<bool>)
    requires cfg.trigger == TriggerConsecutive
    ensures CountOf(Events(cfg, pct, log), AlertUnhealthy) == CountAtLeast(Outages(log), cfg.Threshold())
  {
    if log != [] {
      var init := log[..|log| - 1];
      OneAlertPerOutage(cfg, pct, init);
      LastEvent(cfg, pct, log);
      StateClosedForm(cfg, pct, init);
      StateClosedForm(cfg, pct, log);
      CountOfPush(Events(cfg, pct, init), Change(After(cfg, pct, init).state, After(cfg, pct, log).state), AlertUnhealthy);
      var runs := Outages(init);
      if log[|log| - 1] {
        assert (runs + [0])[..|runs|] == runs;
      } else {
        var k := runs[|runs| - 1];
        assert (runs[..|runs| - 1] + [k + 1])[..|runs| - 1] == runs[..|runs| - 1];
      }
    }
  }

  // ----- availability mode: what can cause an event -----

  lemma BelowMinimumSlides(cfg: Config, pct: Percent, log: seq<bool>, success: bool)
    requires cfg.HasWindow() && |log| >= cfg.windowSize
    ensures BelowMinimum(cfg, pct, log + [success]) && !BelowMinimum(cfg, pct, log) ==>
              !success && log[|log| - cfg.windowSize]
    ensures BelowMinimum(cfg, pct, log) && !BelowMinimum(cfg, pct, log + [success]) ==>
              success && !log[|log| - cfg.windowSize]
  {
    CountAfterPush(log, success, cfg.windowSize);
    var a, b := CountTrue(LastN(log, cfg.windowSize)), CountTrue(LastN(log + [success], cfg.windowSize));
    if a <= b {
      assert pct(a, cfg.windowSize) <= pct(b, cfg.windowSize);
    }
    if b <= a {
      assert pct(b, cfg.windowSize) <= pct(a, cfg.windowSize);
    }
  }

  /** Once the window has filled, only a failure that evicts a success can alert
      and only a success that evicts a failure can recover. Before it is full
      nothing happens, and the check that fills it can at most alert. */
  lemma CauseOfEvent(cfg: Config, pct: Percent, log: seq<bool>, success: bool)
    requires cfg.trigger == TriggerAvailability
    ensures var ev := EventOn(cfg, pct, log, success);
            && (!cfg.HasWindow() || |log| + 1 < cfg.windowSize ==> ev == NoEvent)
            && (cfg.HasWindow() && |log| + 1 == cfg.windowSize ==> ev != RecoveryHealthy)
            && (cfg.HasWindow() && |log| >= cfg.windowSize && ev == AlertUnhealthy ==>
                  !success && log[|log| - cfg.windowSize])
            && (ev == RecoveryHealthy ==>
                  cfg.HasWindow() && |log| >= cfg.windowSize && success && !log[|log| - cfg.windowSize])
  {
    EventIsStateChange(cfg, pct, log, success);
    StateClosedForm(cfg, pct, log);
    StateClosedForm(cfg, pct, log + [success]);
    if cfg.HasWindow() && |log| >= cfg.windowSize {
      BelowMinimumSlides(cfg, pct, log, success);
    }
  }

  // ----- bounded reaction -----

  lemma LastNOfRepeat(log: seq<bool>, b: bool, k: nat, n: nat)
    requires n <= k
    ensures LastN(log + Repeat(b, k), n) == Repeat(b, n)
  {
  }

  lemma CountRepeat(b: bool, n: nat)
    ensures CountTrue(Repeat(b, n)) == if b then n else 0
  {
    CountExtremes(Repeat(b, n));
  }

  /** The check that fills the window alerts exactly if the whole window is
      below the minimum, whatever the check itself came to: the one place where
      a passing check can alert. */
  lemma FillingCheck(cfg: Config, pct: Percent, log: seq<bool>, success: bool)
    requires cfg.trigger == TriggerAvailability && |log| + 1 == cfg.windowSize
    ensures EventOn(cfg, pct, log, success) ==
            if pct(CountTrue(log + [success]), cfg.windowSize) < cfg.minAvailability then AlertUnhealthy else NoEvent
  {
    hide After, EventOn, CountTrue;
    EventIsStateChange(cfg, pct, log, success);
    StateClosedForm(cfg, pct, log);
    StateClosedForm(cfg, pct, log + [success]);
  }

  /** The direction of one event during a run of equal outcomes. */
  lemma SameOutcomeEvent(cfg: Config, pct: Percent, log: seq<bool>, b: bool)
    requires b && cfg.trigger == TriggerAvailability && cfg.HasWindow() ==> |log| >= cfg.windowSize
    ensures EventOn(cfg, pct, log, b) != if b then AlertUnhealthy else RecoveryHealthy
  {
    if cfg.trigger == TriggerAvailability {
      CauseOfEvent(cfg, pct, log, b);
    }
  }

  /** The events of a run of outcomes b that led from one state to another. */
  predicate OneWay(evs: seq<Event>, b: bool, from: State, to: State) {
    && CountOf(evs, if b then AlertUnhealthy else RecoveryHealthy) == 0
    && CountOf(evs, if b then RecoveryHealthy else AlertUnhealthy) == (if from == to then 0 else 1)
    && (to == from || to == if b then Healthy else Unhealthy)
  }

  lemma OneWayPush(evs: seq<Event>, b: bool, from: State, mid: State, to: State)
    requires OneWay(evs, b, from, mid)
    requires Change(mid, to) != if b then AlertUnhealthy else RecoveryHealthy
    ensures OneWay(evs + [Change(mid, to)], b, from, to)
  {
    hide CountOf;
    CountOfPush(evs, Change(mid, to), AlertUnhealthy);
    CountOfPush(evs, Change(mid, to), RecoveryHealthy);
  }

  lemma EventsExtend(cfg: Config, pct: Percent, log: seq<bool>, more: seq<bool>, b: bool)
    ensures Events(cfg, pct, log + more + [b])[|log|..] ==
            Events(cfg, pct, log + more)[|log|..] + [EventOn(cfg, pct, log + more, b)]
  {
    hide Events, EventOn;
    EventsPush(cfg, pct, log + more, b);
  }

  /** A run of equal outcomes never undoes itself: failures cannot recover a
      unit, successes cannot alert one once its window is full, and the state
      changes at most once. */
  lemma {:induction false} UniformRunEvents(cfg: Config, pct: Percent, log: seq<bool>, b: bool, k: nat)
    requires b && cfg.trigger == TriggerAvailability && cfg.HasWindow() ==> |log| >= cfg.windowSize
    ensures OneWay(Events(cfg, pct, log + Repeat(b, k))[|log|..], b,
                   After(cfg, pct, log).state, After(cfg, pct, log + Repeat(b, k)).state)
  {
    hide After, EventOn, Events, Repeat;
    if k == 0 {
      assert log + Repeat(b, 0) == log;
    } else {
      hide OneWay;
      var before := log + Repeat(b, k - 1);
      UniformRunEvents(cfg, pct, log, b, k - 1);
      RepeatPush(log, b, k);
      EventIsStateChange(cfg, pct, before, b);
      SameOutcomeEvent(cfg, pct, before, b);
      EventsExtend(cfg, pct, log, Repeat(b, k - 1), b);
      OneWayPush(Events(cfg, pct, before)[|log|..], b, After(cfg, pct, log).state,
                 After(cfg, pct, before).state, After(cfg, pct, before + [b]).state);
    }
  }

  /** How many alerts and recoveries the checks after `log` cause. */
  function Reaction(cfg: Config, pct: Percent, log: seq<bool>, more: seq<bool>): (nat, nat) {
    var evs := Events(cfg, pct, log + more)[|log|..];
    (CountOf(evs, AlertUnhealthy), CountOf(evs, RecoveryHealthy))
  }

  /** Availability mode, from any reachable state: an outage as long as the
      window alerts a healthy unit exactly once if the minimum is positive and
      never otherwise; a run of successes as long as the window recovers an
      unhealthy unit exactly once if the minimum is at most 100 and never
      otherwise. No notification of the other kind is sent on the way. */
  lemma BoundedReactionAvailability(cfg: Config, pct: Percent, log: seq<bool>)
    requires cfg.trigger == TriggerAvailability && cfg.HasWindow()
    ensures After(cfg, pct, log).state == Healthy ==>
              Reaction(cfg, pct, log, Repeat(false, cfg.windowSize)) ==
              if cfg.minAvailability > 0.0 then (1, 0) else (0, 0)
    ensures After(cfg, pct, log).state == Unhealthy ==>
              Reaction(cfg, pct, log, Repeat(true, cfg.windowSize)) ==
              if cfg.minAvailability <= 100.0 then (0, 1) else (0, 0)
  {
    var w: nat := cfg.windowSize;
    StateClosedForm(cfg, pct, log);
    forall b: bool
      ensures LastN(log + Repeat(b, w), w) == Repeat(b, w)
      ensures CountTrue(Repeat(b, w)) == if b then w else 0
      ensures After(cfg, pct, log + Repeat(b, w)).state == Unhealthy <==>
              cfg.minAvailability > if b then 100.0 else 0.0
    {
      LastNOfRepeat(log, b, w, w);
      CountRepeat(b, w);
      StateClosedForm(cfg, pct, log + Repeat(b, w));
    }
    UniformRunEvents(cfg, pct, log, false, w);
    if After(cfg, pct, log).state == Unhealthy {
      UniformRunEvents(cfg, pct, log, true, w);
    }
  }

  lemma {:induction false} TrailingOfRepeat(log: seq<bool>, k: nat)
    ensures TrailingFailures(log + Repeat(false, k)) == TrailingFailures(log) + k
  {
    if k == 0 {
      assert log + Repeat(false, 0) == log;
    } else {
      TrailingOfRepeat(log, k - 1);
      TrailingPush(log + Repeat(false, k - 1), false);
      RepeatPush(log, false, k);
    }
  }

  /** Consecutive mode, from any reachable state: k failures leave a unit
      unhealthy exactly when they complete a run of threshold length, with one
      alert if it was healthy. */
  lemma BoundedReactionConsecutive(cfg: Config, pct: Percent, log: seq<bool>, k: nat)
    requires cfg.trigger == TriggerConsecutive
    ensures var was := After(cfg, pct, log);
            Reaction(cfg, pct, log, Repeat(false, k)) ==
            (if was.state == Healthy && was.consecutive + k >= cfg.Threshold() then 1 else 0, 0)
  {
    StateClosedForm(cfg, pct, log);
    StateClosedForm(cfg, pct, log + Repeat(false, k));
    TrailingOfRepeat(log, k);
    UniformRunEvents(cfg, pct, log, false, k);
  }

  /** Consecutive mode, from any reachable state: a run of successes, however
      short, recovers an unhealthy unit with one notification and signals
      nothing for a healthy one. */
  lemma SuccessesRecoverOnce(cfg: Config, pct: Percent, log: seq<bool>, k: nat)
    requires cfg.trigger == TriggerConsecutive && k >= 1
    ensures Reaction(cfg, pct, log, Repeat(true, k)) == (0, if After(cfg, pct, log).state == Unhealthy then 1 else 0)
    ensures After(cfg, pct, log + Repeat(true, k)).state == Healthy
  {
    hide After, Events, CountOf;
    StateClosedForm(cfg, pct, log + Repeat(true, k));
    RepeatPush(log, true, k);
    TrailingPush(log + Repeat(true, k - 1), true);
    UniformRunEvents(cfg, pct, log, true, k);
  }

  lemma CountMixed(b: bool, k: nat, w: nat)
    requires k <= w
    ensures CountTrue(Repeat(!b, w - k) + Repeat(b, k)) == if b then k else w - k
  {
    CountConcat(Repeat(!b, w - k), Repeat(b, k));
    CountRepeat(!b, w - k);
    CountRepeat(b, k);
  }

  lemma WindowInRun(log: seq<bool>, b: bool, k: nat, w: nat)
    requires k <= w <= |log| && LastN(log, w) == Repeat(!b, w)
    ensures LastN(log + Repeat(b, k), w) == Repeat(!b, w - k) + Repeat(b, k)
  {
    var after := LastN(log + Repeat(b, k), w);
    forall i | 0 <= i < w ensures after[i] == if i < w - k then !b else b {
      if i < w - k {
        assert after[i] == LastN(log, w)[i + k];
      }
    }
  }

  /** The exact reaction time: from a window of equal outcomes, the unit is
      unhealthy after k checks of the other kind exactly if the successes then
      in the window are too few. */
  lemma ExactReactionTime(cfg: Config, pct: Percent, log: seq<bool>, b: bool, k: nat)
    requires cfg.trigger == TriggerAvailability && cfg.HasWindow()
    requires k <= cfg.windowSize <= |log|
    requires LastN(log, cfg.windowSize) == Repeat(!b, cfg.windowSize)
    ensures After(cfg, pct, log + Repeat(b, k)).state == Unhealthy <==>
            pct(if b then k else cfg.windowSize - k, cfg.windowSize) < cfg.minAvailability
  {
    hide After, CountTrue, LastN, TrailingFailures;
    StateClosedForm(cfg, pct, log + Repeat(b, k));
    WindowInRun(log, b, k, cfg.windowSize);
    CountMixed(b, k, cfg.windowSize);
  }
}
