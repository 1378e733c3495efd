/** The monitoring loops (internal/roles) as concurrent programs that step the
    shared registry: one atomic step per registry call, in any interleaving. */
module Drivers {
  import opened Logs
  import opened RollingWindow
  import opened History
  import opened AlertMachine
  import opened AlertTheorems
  import opened Alerts
  import opened FleetRegistry

  /** The call a driver makes next. */
  datatype Phase = Observing | Publishing | RecordingCheck | RecordingSpeed | Notifying

  /** A role's loop for one unit. The last entry of `log` is the check in
      progress, if any; `readings` holds the throughput each check measured,
      which only a speed check that did not fail to measure has. */
  datatype Driver = Driver(
    unit: Name,
    role: string,
    cfg: Config,
    phase: Phase,
    machine: Snapshot,
    lastSuccess: Option<int>,
    event: Event,
    now: int,
    sent: seq<Alert>,
    log: seq<Observation>,
    readings: seq<Option<real>>)
  {
    predicate Ready() {
      && |readings| == |log|
      && (phase != Observing ==> log != [])
      && (phase == RecordingSpeed ==> readings[|log| - 1].Some?)
    }

    function Status(pct: Percent): UnitStatus {
      UnitStatus(unit, machine.state, cfg.HasWindow(), Availability(pct, machine.window),
                 machine.consecutive, lastSuccess)
    }

    /** How many of the checks each kind of call was already made for. */
    function Published(): (k: int)
      requires Ready()
      ensures 0 <= k <= |log|
    {
      |log| - if phase == Publishing then 1 else 0
    }

    function Recorded(): (k: int)
      requires Ready()
      ensures 0 <= k <= |log|
    {
      |log| - if phase == Publishing || phase == RecordingCheck then 1 else 0
    }

    function SpeedRecorded(): (k: int)
      requires Ready()
      ensures 0 <= k <= |log|
    {
      |log| - if phase == Observing || phase == Notifying then 0 else 1
    }

    function Notified(): (k: int)
      requires Ready()
      ensures 0 <= k <= |log|
    {
      |log| - if phase == Observing then 0 else 1
    }
  }

  function NewDriver(unit: Name, role: string, cfg: Config): Driver {
    Driver(unit, role, cfg, Observing, INITIAL, None, NoEvent, 0, [], [], [])
  }

  function ToSeq<T>(o: Option<T>): seq<T> {
    match o case None => [] case Some(v) => [v]
  }

  /** The throughputs that were measured, in order. */
  function Measured(readings: seq<Option<real>>): seq<real> {
    if readings == [] then []
    else Measured(readings[..|readings| - 1]) + ToSeq(readings[|readings| - 1])
  }

  /** A driver's next step and the registry call it makes, if any. A new check
      comes to `seen` and `reading`; `now` is a clock reading. */
  function Advance(pct: Percent, d: Driver, seen: Observation, reading: Option<real>, now: int): (Driver, Option<Op>)
    requires d.Ready()
  {
    match d.phase
    case Observing =>
      var (m, ev) := Step(d.cfg, pct, d.machine, seen.success);
      (d.(phase := Publishing, machine := m, event := ev, log := d.log + [seen], readings := d.readings + [reading],
          lastSuccess := if seen.success then Some(seen.at) else d.lastSuccess), None)
    case Publishing =>
      (d.(phase := RecordingCheck), Some(Update(d.Status(pct))))
    case RecordingCheck =>
      var i := |d.log| - 1;
      (d.(phase := if d.readings[i].Some? then RecordingSpeed else Notifying, now := now),
       Some(RecordCheck(d.unit, CheckSample(now, d.log[i].success))))
    case RecordingSpeed =>
      (d.(phase := Notifying),
       Some(RecordSpeed(d.unit, SpeedSample(d.now, d.readings[|d.log| - 1].value))))
    case Notifying =>
      (d.(phase := Observing, sent := d.sent + ToSeq(DispatchEvent(d.role, d.event, d.machine.consecutive))), None)
  }

  // ----- what a driver and its registry entry look like at every step -----

  /** The status a machine that observed these checks publishes. */
  function ViewOf(pct: Percent, name: Name, cfg: Config, log: seq<Observation>): UnitStatus {
    var m := After(cfg, pct, Outcomes(log));
    UnitStatus(name, m.state, cfg.HasWindow(), Availability(pct, m.window), m.consecutive, LastSuccess(log))
  }

  /** The status on show once these checks were published: before the first, the
      slot as registered, which is not what a fresh machine would publish. */
  function StatusAfter(pct: Percent, name: Name, cfg: Config, log: seq<Observation>): UnitStatus {
    if log == [] then InitialStatus(name) else ViewOf(pct, name, cfg, log)
  }

  /** A unit on show agrees with its machine exactly from its first update on: a
      slot as registered claims no availability where a fresh machine has all. */
  lemma StatusMatchesFromFirstUpdate(pct: Percent, name: Name, cfg: Config, log: seq<Observation>)
    ensures StatusAfter(pct, name, cfg, log) == ViewOf(pct, name, cfg, log) <==> log != []
  {
    if log == [] {
      assert Outcomes(log) == [];
      assert ViewOf(pct, name, cfg, log).availability == 100.0;
    }
  }

  /** A slot as registered differs from what a fresh machine would publish in its
      window and availability only. */
  lemma SlotIsFreshButForWindow(pct: Percent, name: Name, cfg: Config)
    ensures InitialStatus(name).(hasWindow := cfg.HasWindow(), availability := 100.0) == ViewOf(pct, name, cfg, [])
    ensures InitialStatus(name).state == After(cfg, pct, []).state == Healthy
    ensures InitialStatus(name).consecutive == After(cfg, pct, []).consecutive == 0
  {
    assert Outcomes([]) == [];
  }

  /** What a unit publishes, read off its checks alone. */
  lemma StatusTellsTheLog(pct: Percent, name: Name, cfg: Config, log: seq<Observation>)
    ensures var s, outcomes := ViewOf(pct, name, cfg, log), Outcomes(log);
            && s.name == name
            && (s.state == Unhealthy <==> Failing(cfg, pct, outcomes))
            && (s.hasWindow <==> cfg.windowSize > 0)
            && s.consecutive == TrailingFailures(outcomes)
            && s.lastSuccess == LastSuccess(log)
            && s.availability ==
               if cfg.windowSize <= 0 || log == [] then 100.0
               else var seen := LastN(outcomes, cfg.windowSize); pct(CountTrue(seen), |seen|)
  {
    hide After, CountTrue, TrailingFailures, LastN, Failing;
    StateClosedForm(cfg, pct, Outcomes(log));
  }

  function Throughputs(samples: seq<SpeedSample>): (s: seq<real>)
    ensures |s| == |samples|
  {
    seq(|samples|, i requires 0 <= i < |samples| => samples[i].mbps)
  }

  /** A driver's own fields agree with the checks it has made, and its
      notifications with the machine as it was at each of them. */
  predicate Coherent(pct: Percent, d: Driver) {
    && d.Ready()
    && d.machine == After(d.cfg, pct, Outcomes(d.log))
    && d.lastSuccess == LastSuccess(d.log)
    && (d.phase != Observing ==>
          d.event == EventOn(d.cfg, pct, Outcomes(d.log[..|d.log| - 1]), d.log[|d.log| - 1].success))
    && d.sent == AlertLog(d.role, d.cfg, pct, Outcomes(d.log[..d.Notified()]))
  }

  /** The registry entry reflects each kind of call as far as it was made. */
  predicate Reflected(pct: Percent, d: Driver, entry: Option<Entry>) {
    && d.Ready()
    && entry.Some?
    && entry.value.status == StatusAfter(pct, d.unit, d.cfg, d.log[..d.Published()])
    && Successes(entry.value.checks) == Outcomes(d.log[..d.Recorded()])
    && Throughputs(entry.value.speeds) == Measured(d.readings[..d.SpeedRecorded()])
  }

  lemma CoherentStep(pct: Percent, d: Driver, seen: Observation, reading: Option<real>, now: int)
    requires Coherent(pct, d)
    ensures Coherent(pct, Advance(pct, d, seen, reading, now).0)
  {
    hide After, EventOn, Step, AlertLog, LastSuccess, Outcomes, DispatchEvent, Availability;
    match d.phase
    case Observing => CoherentObserve(pct, d, seen, reading, now);
    case Publishing =>
    case RecordingCheck =>
    case RecordingSpeed =>
    case Notifying => CoherentNotify(pct, d, seen, reading, now);
  }

  lemma CoherentObserve(pct: Percent, d: Driver, seen: Observation, reading: Option<real>, now: int)
    requires Coherent(pct, d) && d.phase == Observing
    ensures Coherent(pct, Advance(pct, d, seen, reading, now).0)
  {
    hide After, EventOn, Step, AlertLog, LastSuccess, Outcomes, DispatchEvent, Availability;
    ObservationPush(d.log, seen);
    AfterPush(d.cfg, pct, Outcomes(d.log), seen.success);
    EventOnMeans(d.cfg, pct, Outcomes(d.log), seen.success);
    assert (d.log + [seen])[..|d.log|] == d.log == d.log[..|d.log|];
  }

  lemma CoherentNotify(pct: Percent, d: Driver, seen: Observation, reading: Option<real>, now: int)
    requires Coherent(pct, d) && d.phase == Notifying
    ensures Coherent(pct, Advance(pct, d, seen, reading, now).0)
  {
    hide After, EventOn, Step, AlertLog, LastSuccess, Outcomes, DispatchEvent, Availability;
    var init, last := d.log[..|d.log| - 1], d.log[|d.log| - 1];
    assert d.log == init + [last] == d.log[..|d.log|];
    ObservationPush(init, last);
    AlertLogPush(d.role, d.cfg, pct, Outcomes(init), last.success);
  }

  lemma EventOnMeans(cfg: Config, pct: Percent, log: seq<bool>, success: bool)
    ensures EventOn(cfg, pct, log, success) == Step(cfg, pct, After(cfg, pct, log), success).1
  {
    hide Step, After;
  }

  lemma RecordedPush(checks: seq<CheckSample>, c: CheckSample, speeds: seq<SpeedSample>, x: SpeedSample)
    ensures Successes(checks + [c]) == Successes(checks) + [c.success]
    ensures Throughputs(speeds + [x]) == Throughputs(speeds) + [x.mbps]
  {
  }

  /** The registry, and one unit's entry, after a step's call if it made one. */
  function Effect(f: Fleet, op: Option<Op>): Fleet {
    match op case None => f case Some(o) => Apply(f, o)
  }

  function EntryAfter(e: Entry, op: Option<Op>): Entry {
    match op case None => e case Some(o) => EntryEffect(e, o)
  }

  lemma OwnEntry(f: Fleet, op: Option<Op>, unit: Name)
    requires WellFormed(f) && EntryOf(f, unit).Some?
    requires op.Some? ==> op.value.Unit() == unit
    ensures EntryOf(Effect(f, op), unit) == Some(EntryAfter(EntryOf(f, unit).value, op))
  {
    hide Apply, EntryOf, EntryEffect, WellFormed;
    if op.Some? {
      ApplyToEntry(f, op.value);
    }
  }

  lemma EntryStep(pct: Percent, d: Driver, e: Entry, seen: Observation, reading: Option<real>, now: int)
    requires Reflected(pct, d, Some(e)) && Coherent(pct, d)
    ensures var (d', op) := Advance(pct, d, seen, reading, now);
            Reflected(pct, d', Some(EntryAfter(e, op)))
  {
    hide After, EventOn, Step, LastSuccess, Outcomes, Availability, AlertLog, Measured, Successes, Throughputs;
    var d' := Advance(pct, d, seen, reading, now).0;
    var n := |d.log|;
    match d.phase
    case Observing =>
      assert d'.log[..n] == d.log[..n] && d'.readings[..n] == d.readings[..n];
    case Publishing =>
      assert d.log[..n] == d.log;
    case RecordingCheck =>
      RecordedPush(e.checks, CheckSample(now, d.log[n - 1].success), [], SpeedSample(now, 0.0));
      assert d.log[..n] == d.log[..n - 1] + [d.log[n - 1]];
      ObservationPush(d.log[..n - 1], d.log[n - 1]);
      ReadingPush(d.readings, n);
    case RecordingSpeed =>
      RecordedPush([], CheckSample(now, true), e.speeds, SpeedSample(d.now, d.readings[n - 1].value));
      ReadingPush(d.readings, n);
    case Notifying =>
  }

  lemma ReadingPush(readings: seq<Option<real>>, n: nat)
    requires 0 < n <= |readings|
    ensures Measured(readings[..n]) == Measured(readings[..n - 1]) + ToSeq(readings[n - 1])
  {
    assert readings[..n] == readings[..n - 1] + [readings[n - 1]];
    MeasuredPush(readings[..n - 1], readings[n - 1]);
  }

  lemma ReflectedStep(pct: Percent, d: Driver, f: Fleet, seen: Observation, reading: Option<real>, now: int)
    requires WellFormed(f) && Coherent(pct, d) && Reflected(pct, d, EntryOf(f, d.unit))
    ensures var (d', op) := Advance(pct, d, seen, reading, now);
            Reflected(pct, d', EntryOf(Effect(f, op), d.unit))
  {
    hide Coherent, Reflected, Advance, Effect, EntryOf, EntryAfter, WellFormed;
    ReflectedHasEntry(pct, d, EntryOf(f, d.unit));
    CoherentIsReady(pct, d);
    AdvanceKeepsUnit(pct, d, seen, reading, now);
    OwnEntry(f, Advance(pct, d, seen, reading, now).1, d.unit);
    EntryStep(pct, d, EntryOf(f, d.unit).value, seen, reading, now);
  }

  lemma ReflectedHasEntry(pct: Percent, d: Driver, entry: Option<Entry>)
    requires Reflected(pct, d, entry)
    ensures entry.Some?
  {
  }

  lemma MeasuredPush(readings: seq<Option<real>>, r: Option<real>)
    ensures Measured(readings + [r]) == Measured(readings) + ToSeq(r)
  {
    assert (readings + [r])[..|readings|] == readings;
  }

  // ----- the system -----

  datatype System = System(fleet: Fleet, drivers: seq<Driver>)

  /** Which driver steps next, and what it would then see. */
  datatype Move = Move(id: nat, seen: Observation, reading: Option<real>, now: int)

  function StepSystem(pct: Percent, s: System, mv: Move): System {
    if mv.id >= |s.drivers| || !s.drivers[mv.id].Ready() then s
    else
      var (d, op) := Advance(pct, s.drivers[mv.id], mv.seen, mv.reading, mv.now);
      System(Effect(s.fleet, op), s.drivers[mv.id := d])
  }

  /** The system after any interleaving of the drivers' steps. */
  function Exec(pct: Percent, s: System, moves: seq<Move>): System {
    if moves == [] then s else StepSystem(pct, Exec(pct, s, moves[..|moves| - 1]), moves[|moves| - 1])
  }

  datatype Spec = Spec(unit: Name, role: string, cfg: Config)

  /** Start-up: every driver registers its unit before any loop runs. */
  function Launch(specs: seq<Spec>): System {
    System(Run(Registrations(specs)),
           seq(|specs|, i requires 0 <= i < |specs| => NewDriver(specs[i].unit, specs[i].role, specs[i].cfg)))
  }

  /** No other driver was given driver i's unit name. */
  predicate OwnsUnit(specs: seq<Spec>, i: nat)
    requires i < |specs|
  {
    forall j :: 0 <= j < |specs| && j != i ==> specs[j].unit != specs[i].unit
  }

  predicate Configured(d: Driver, spec: Spec) {
    d.unit == spec.unit && d.role == spec.role && d.cfg == spec.cfg
  }

  /** A driver is always coherent; its entry reflects it if the unit is its own. */
  predicate DriverOk(pct: Percent, specs: seq<Spec>, s: System, i: nat)
    requires i < |s.drivers| == |specs|
  {
    && Configured(s.drivers[i], specs[i])
    && Coherent(pct, s.drivers[i])
    && (OwnsUnit(specs, i) ==> Reflected(pct, s.drivers[i], EntryOf(s.fleet, specs[i].unit)))
  }

  ghost predicate Consistent(pct: Percent, specs: seq<Spec>, s: System) {
    && WellFormed(s.fleet)
    && |s.drivers| == |specs|
    && forall i :: 0 <= i < |specs| ==> DriverOk(pct, specs, s, i)
  }

  lemma AdvanceKeepsUnit(pct: Percent, d: Driver, seen: Observation, reading: Option<real>, now: int)
    requires d.Ready()
    ensures var (d', op) := Advance(pct, d, seen, reading, now);
            && d'.unit == d.unit && d'.cfg == d.cfg && d'.role == d.role
            && (op.Some? ==> op.value.Unit() == d.unit && !op.value.Register?)
  {
  }

  lemma StepKeepsConsistent(pct: Percent, specs: seq<Spec>, s: System, mv: Move)
    requires Consistent(pct, specs, s)
    ensures Consistent(pct, specs, StepSystem(pct, s, mv))
  {
    hide Coherent, Reflected, Advance, Apply, EntryOf, WellFormed;
    if mv.id < |s.drivers| {
      var d := s.drivers[mv.id];
      assert DriverOk(pct, specs, s, mv.id);
      CoherentIsReady(pct, d);
      var (d', op) := Advance(pct, d, mv.seen, mv.reading, mv.now);
      var s' := StepSystem(pct, s, mv);
      AdvanceKeepsUnit(pct, d, mv.seen, mv.reading, mv.now);
      CoherentStep(pct, d, mv.seen, mv.reading, mv.now);
      if OwnsUnit(specs, mv.id) {
        ReflectedStep(pct, d, s.fleet, mv.seen, mv.reading, mv.now);
      }
      if op.Some? {
        ApplyKeepsWellFormed(s.fleet, op.value);
      }
      forall i | 0 <= i < |specs| ensures DriverOk(pct, specs, s', i) {
        assert DriverOk(pct, specs, s, i);
        if i != mv.id && OwnsUnit(specs, i) && op.Some? {
          ApplyToOther(s.fleet, op.value, specs[i].unit);
        }
      }
    }
  }

  lemma CoherentIsReady(pct: Percent, d: Driver)
    requires Coherent(pct, d)
    ensures d.Ready()
  {
  }

  // ----- every interleaving from start-up -----

  function Registrations(specs: seq<Spec>): seq<Op> {
    seq(|specs|, i requires 0 <= i < |specs| => Register(specs[i].unit))
  }

  lemma {:induction false} FreshEntries(specs: seq<Spec>, i: nat)
    requires i < |specs|
    ensures EntryOf(Run(Registrations(specs)), specs[i].unit) == Some(Entry(InitialStatus(specs[i].unit), [], []))
  {
    hide Run, WellFormed, Apply, EntryOf;
    var n := |specs| - 1;
    var init := specs[..n];
    assert Registrations(specs) == Registrations(init) + [Register(specs[n].unit)];
    RunPush(Registrations(init), Register(specs[n].unit));
    RunWellFormed(Registrations(init));
    if i < n {
      FreshEntries(init, i);
      RegisterAgain(Run(Registrations(init)), specs[n].unit, specs[i].unit);
    } else if j :| 0 <= j < n && specs[j].unit == specs[n].unit {
      FreshEntries(init, j);
      RegisterAgain(Run(Registrations(init)), specs[n].unit, specs[n].unit);
    } else {
      OnlyRegistered(init, specs[n].unit);
      RegisterNew(Run(Registrations(init)), specs[n].unit);
    }
  }

  /** Registering never disturbs an entry that is already there. */
  lemma RegisterAgain(f: Fleet, name: Name, known: Name)
    requires WellFormed(f) && EntryOf(f, known).Some?
    ensures EntryOf(Apply(f, Register(name)), known) == EntryOf(f, known)
  {
  }

  lemma RegisterNew(f: Fleet, name: Name)
    requires name !in f.units
    ensures EntryOf(Apply(f, Register(name)), name) == Some(Entry(InitialStatus(name), [], []))
  {
  }

  lemma {:induction false} OnlyRegistered(specs: seq<Spec>, name: Name)
    requires forall i :: 0 <= i < |specs| ==> specs[i].unit != name
    ensures name !in Run(Registrations(specs)).units
  {
    hide Run;
    if specs == [] {
      assert Registrations(specs) == [];
      RunNothing();
    } else {
      var n := |specs| - 1;
      OnlyRegistered(specs[..n], name);
      assert Registrations(specs) == Registrations(specs[..n]) + [Register(specs[n].unit)];
      RunPush(Registrations(specs[..n]), Register(specs[n].unit));
    }
  }

  lemma RunNothing()
    ensures Run([]) == EMPTY
  {
  }

  lemma NothingYet(pct: Percent, spec: Spec)
    ensures var d := NewDriver(spec.unit, spec.role, spec.cfg);
            && Coherent(pct, d)
            && Reflected(pct, d, Some(Entry(InitialStatus(spec.unit), [], [])))
  {
    assert Outcomes([]) == [] && Successes([]) == [] && Throughputs([]) == [];
  }

  lemma LaunchConsistent(pct: Percent, specs: seq<Spec>)
    ensures Consistent(pct, specs, Launch(specs))
  {
    hide Coherent, Reflected, EntryOf, WellFormed, Run;
    RunWellFormed(Registrations(specs));
    forall i | 0 <= i < |specs| ensures DriverOk(pct, specs, Launch(specs), i) {
      FreshEntries(specs, i);
      NothingYet(pct, specs[i]);
    }
  }

  /** In every interleaving of any drivers, every driver stays coherent and as
      configured, and the entry of a unit with one driver reflects that driver. */
  lemma {:induction false} ExecConsistent(pct: Percent, specs: seq<Spec>, moves: seq<Move>)
    ensures Consistent(pct, specs, Exec(pct, Launch(specs), moves))
  {
    hide Consistent, StepSystem, Launch;
    if moves == [] {
      LaunchConsistent(pct, specs);
    } else {
      ExecConsistent(pct, specs, moves[..|moves| - 1]);
      StepKeepsConsistent(pct, specs, Exec(pct, Launch(specs), moves[..|moves| - 1]), moves[|moves| - 1]);
    }
  }

  lemma DriverAt(pct: Percent, specs: seq<Spec>, moves: seq<Move>, i: nat) returns (d: Driver)
    requires i < |specs|
    ensures var s := Exec(pct, Launch(specs), moves);
            && |s.drivers| == |specs| && s.drivers[i] == d && WellFormed(s.fleet)
            && Configured(d, specs[i]) && Coherent(pct, d)
            && (OwnsUnit(specs, i) ==> Reflected(pct, d, EntryOf(s.fleet, specs[i].unit)))
  {
    hide Coherent, Reflected, EntryOf, Exec, WellFormed, OwnsUnit;
    ExecConsistent(pct, specs, moves);
    d := Exec(pct, Launch(specs), moves).drivers[i];
    assert DriverOk(pct, specs, Exec(pct, Launch(specs), moves), i);
  }

  lemma ChecksCommute(checks: seq<CheckSample>, n: nat)
    ensures Successes(LastN(checks, n)) == LastN(Successes(checks), n)
  {
  }

  lemma SpeedsCommute(speeds: seq<SpeedSample>, n: nat)
    ensures Throughputs(LastN(speeds, n)) == LastN(Throughputs(speeds), n)
  {
  }

  /** Whenever a summary is taken, a unit's status covers k checks, its check
      history the newest 100 of c checks and its speed history the newest 100
      throughputs measured in m checks, where m <= c <= k and none of them lags
      the checks observed by more than one. */
  lemma BoundedLag(pct: Percent, specs: seq<Spec>, moves: seq<Move>, i: nat, u: UnitSummary)
    requires i < |specs| && OwnsUnit(specs, i)
    requires Reports(Exec(pct, Launch(specs), moves).fleet, pct, specs[i].unit, u)
    ensures var s := Exec(pct, Launch(specs), moves);
            && |s.drivers| == |specs| && s.drivers[i].Ready()
            && var d := s.drivers[i];
            && |d.log| - 1 <= d.SpeedRecorded() <= d.Recorded() <= d.Published() <= |d.log|
            && u.status == StatusAfter(pct, specs[i].unit, specs[i].cfg, d.log[..d.Published()])
            && Successes(u.checks) == LastN(Outcomes(d.log[..d.Recorded()]), 100)
            && Throughputs(u.speeds) == LastN(Measured(d.readings[..d.SpeedRecorded()]), 100)
            && u.historyAvailability == Availability(pct, LastN(Outcomes(d.log[..d.Recorded()]), 100))
  {
    hide Exec, StatusAfter, Outcomes, Measured, LastN, Successes, Throughputs, Availability, AlertLog, After, EventOn;
    var d := DriverAt(pct, specs, moves, i);
    var f := Exec(pct, Launch(specs), moves).fleet;
    ChecksCommute(f.checks[specs[i].unit], HISTORY_CAP);
    SpeedsCommute(f.speeds[specs[i].unit], HISTORY_CAP);
  }

  /** Once a check is recorded, the published rolling availability and the
      history availability agree whenever they cover equally many checks. */
  lemma WindowAgreesWithHistory(pct: Percent, specs: seq<Spec>, moves: seq<Move>, i: nat, u: UnitSummary)
    requires i < |specs| && OwnsUnit(specs, i) && specs[i].cfg.HasWindow()
    requires Reports(Exec(pct, Launch(specs), moves).fleet, pct, specs[i].unit, u)
    requires var s := Exec(pct, Launch(specs), moves);
             && |s.drivers| == |specs| && s.drivers[i].Ready()
             && var d, w := s.drivers[i], specs[i].cfg.windowSize;
             && d.log != [] && d.Recorded() == |d.log|
             && (w == HISTORY_CAP || (|d.log| <= w && |d.log| <= HISTORY_CAP))
    ensures u.status.availability == u.historyAvailability
  {
    hide Exec, Outcomes, Measured, Successes, Throughputs, Availability, AlertLog, After, EventOn, Reports;
    BoundedLag(pct, specs, moves, i, u);
    var d := Exec(pct, Launch(specs), moves).drivers[i];
    assert d.log[..|d.log|] == d.log;
    StateClosedForm(specs[i].cfg, pct, Outcomes(d.log));
  }

  /** Every change of state is notified exactly once, in order, with the state
      and failure count the machine had; at most the newest check is pending. */
  lemma EveryChangeNotified(pct: Percent, specs: seq<Spec>, moves: seq<Move>, i: nat)
    requires i < |specs|
    ensures var s := Exec(pct, Launch(specs), moves);
            && |s.drivers| == |specs| && s.drivers[i].Ready()
            && var d := s.drivers[i];
            && |d.log| - 1 <= d.Notified() <= |d.log|
            && d.sent == AlertLog(specs[i].role, specs[i].cfg, pct, Outcomes(d.log[..d.Notified()]))
  {
    hide Exec, Outcomes, AlertLog, After, EventOn;
    var d := DriverAt(pct, specs, moves, i);
  }

  /** No step registers a unit, so a summary always lists the same ones. */
  lemma {:induction false} OrderStays(pct: Percent, specs: seq<Spec>, moves: seq<Move>)
    ensures Exec(pct, Launch(specs), moves).fleet.order == Launch(specs).fleet.order
  {
    hide StepSystem, Launch;
    if moves != [] {
      var init := moves[..|moves| - 1];
      OrderStays(pct, specs, init);
      StepKeepsOrder(pct, Exec(pct, Launch(specs), init), moves[|moves| - 1]);
    }
  }

  lemma StepKeepsOrder(pct: Percent, s: System, mv: Move)
    ensures StepSystem(pct, s, mv).fleet.order == s.fleet.order
  {
    hide Advance;
    if mv.id < |s.drivers| && s.drivers[mv.id].Ready() {
      AdvanceKeepsUnit(pct, s.drivers[mv.id], mv.seen, mv.reading, mv.now);
      EffectKeepsOrder(s.fleet, Advance(pct, s.drivers[mv.id], mv.seen, mv.reading, mv.now).1);
    }
  }

  lemma EffectKeepsOrder(f: Fleet, op: Option<Op>)
    requires op.Some? ==> !op.value.Register?
    ensures Effect(f, op).order == f.order
  {
  }

  /** The distinct names among the drivers' units, by first occurrence. */
  function FirstOccurrences(specs: seq<Spec>): (names: seq<Name>)
    ensures forall name :: name in names <==> exists i :: 0 <= i < |specs| && specs[i].unit == name
    ensures forall i, j :: 0 <= i < j < |names| ==> names[i] != names[j]
  {
    if specs == [] then []
    else
      var names, unit := FirstOccurrences(specs[..|specs| - 1]), specs[|specs| - 1].unit;
      if unit in names then names else names + [unit]
  }

  /** Every summary ever taken lists each driver's unit once, in the order the
      drivers were first given it. */
  lemma SummaryListsTheUnits(pct: Percent, specs: seq<Spec>, moves: seq<Move>)
    ensures Exec(pct, Launch(specs), moves).fleet.order == FirstOccurrences(specs)
  {
    hide Exec, FirstOccurrences, Run;
    OrderStays(pct, specs, moves);
    RegisteredInOrder(specs);
  }

  lemma {:induction false} RegisteredInOrder(specs: seq<Spec>)
    ensures Run(Registrations(specs)).order == FirstOccurrences(specs)
  {
    hide Run, WellFormed;
    if specs == [] {
      assert Registrations(specs) == [];
      RunNothing();
    } else {
      var n := |specs| - 1;
      RegisteredInOrder(specs[..n]);
      assert Registrations(specs) == Registrations(specs[..n]) + [Register(specs[n].unit)];
      RunPush(Registrations(specs[..n]), Register(specs[n].unit));
      RunWellFormed(Registrations(specs[..n]));
      KnownIffOrdered(Run(Registrations(specs[..n])), specs[n].unit);
    }
  }

  lemma KnownIffOrdered(f: Fleet, name: Name)
    requires WellFormed(f)
    ensures name in f.units <==> name in f.order
  {
  }

  // ----- non-interference between drivers -----

  /** All that concerns driver i: its own state and its unit's entry. */
  function Slice(s: System, i: nat): (Driver, Option<Entry>)
    requires i < |s.drivers|
  {
    (s.drivers[i], EntryOf(s.fleet, s.drivers[i].unit))
  }

  function OwnMoves(moves: seq<Move>, i: nat): seq<Move> {
    if moves == [] then []
    else OwnMoves(moves[..|moves| - 1], i) + if moves[|moves| - 1].id == i then [moves[|moves| - 1]] else []
  }

  lemma ExecPush(pct: Percent, s: System, moves: seq<Move>, mv: Move)
    ensures Exec(pct, s, moves + [mv]) == StepSystem(pct, Exec(pct, s, moves), mv)
  {
    hide StepSystem;
    assert (moves + [mv])[..|moves|] == moves;
  }

  lemma StepOther(pct: Percent, s: System, mv: Move, i: nat)
    requires i < |s.drivers| && mv.id != i
    requires mv.id < |s.drivers| ==> s.drivers[mv.id].unit != s.drivers[i].unit
    ensures |StepSystem(pct, s, mv).drivers| == |s.drivers|
    ensures Slice(StepSystem(pct, s, mv), i) == Slice(s, i)
  {
    hide Advance, Apply, EntryOf;
    if mv.id < |s.drivers| && s.drivers[mv.id].Ready() {
      var d := s.drivers[mv.id];
      AdvanceKeepsUnit(pct, d, mv.seen, mv.reading, mv.now);
      var op := Advance(pct, d, mv.seen, mv.reading, mv.now).1;
      if op.Some? {
        ApplyToOther(s.fleet, op.value, s.drivers[i].unit);
      }
    }
  }

  lemma StepOwn(pct: Percent, s: System, t: System, mv: Move)
    requires WellFormed(s.fleet) && WellFormed(t.fleet)
    requires mv.id < |s.drivers| == |t.drivers| && Slice(s, mv.id) == Slice(t, mv.id)
    ensures Slice(StepSystem(pct, s, mv), mv.id) == Slice(StepSystem(pct, t, mv), mv.id)
  {
    hide Advance, Apply, EntryOf, WellFormed;
    var d := s.drivers[mv.id];
    if d.Ready() {
      AdvanceKeepsUnit(pct, d, mv.seen, mv.reading, mv.now);
      var op := Advance(pct, d, mv.seen, mv.reading, mv.now).1;
      if op.Some? {
        ApplyToOwn(s.fleet, t.fleet, op.value);
      }
    }
  }

  lemma DriversAsConfigured(pct: Percent, specs: seq<Spec>, moves: seq<Move>)
    ensures var s := Exec(pct, Launch(specs), moves);
            && WellFormed(s.fleet) && |s.drivers| == |specs|
            && forall i :: 0 <= i < |specs| ==> s.drivers[i].unit == specs[i].unit
  {
    hide Exec, Coherent, Reflected, WellFormed, OwnsUnit;
    ExecConsistent(pct, specs, moves);
    forall i | 0 <= i < |specs| ensures Exec(pct, Launch(specs), moves).drivers[i].unit == specs[i].unit {
      assert DriverOk(pct, specs, Exec(pct, Launch(specs), moves), i);
    }
  }

  /** Whatever the other drivers do and however the steps interleave, a driver
      with its own unit and that unit's entry evolve as if it ran alone. */
  lemma {:induction false} DriversDoNotInterfere(pct: Percent, specs: seq<Spec>, moves: seq<Move>, i: nat)
    requires i < |specs| && OwnsUnit(specs, i)
    ensures var s, alone := Exec(pct, Launch(specs), moves), Exec(pct, Launch(specs), OwnMoves(moves, i));
            && |s.drivers| == |alone.drivers| == |specs|
            && Slice(s, i) == Slice(alone, i)
  {
    hide Exec, StepSystem, Slice, WellFormed;
    DriversAsConfigured(pct, specs, moves);
    DriversAsConfigured(pct, specs, OwnMoves(moves, i));
    if moves == [] {
      assert OwnMoves(moves, i) == moves;
    } else {
      var init, mv := moves[..|moves| - 1], moves[|moves| - 1];
      assert moves == init + [mv];
      ExecPush(pct, Launch(specs), init, mv);
      DriversAsConfigured(pct, specs, init);
      DriversAsConfigured(pct, specs, OwnMoves(init, i));
      DriversDoNotInterfere(pct, specs, init, i);
      if mv.id == i {
        ExecPush(pct, Launch(specs), OwnMoves(init, i), mv);
        StepOwn(pct, Exec(pct, Launch(specs), init), Exec(pct, Launch(specs), OwnMoves(init, i)), mv);
      } else {
        StepOther(pct, Exec(pct, Launch(specs), init), mv, i);
        assert OwnMoves(moves, i) == OwnMoves(init, i);
      }
    }
  }

  // ----- exactly when a unit's entry is its driver's -----

  /** One whole check of driver i that measures no throughput, except for the
      notification: observe, publish, record. */
  function CheckMoves(i: nat, seen: Observation, now: int): seq<Move> {
    var mv := Move(i, seen, None, now);
    [mv, mv, mv]
  }

  lemma ExecThree(pct: Percent, s: System, mv: Move)
    ensures Exec(pct, s, [mv, mv, mv]) == StepSystem(pct, StepSystem(pct, StepSystem(pct, s, mv), mv), mv)
  {
    hide StepSystem;
    ExecPush(pct, s, [], mv);
    ExecPush(pct, s, [mv], mv);
    ExecPush(pct, s, [mv, mv], mv);
    assert [mv, mv, mv] == [mv, mv] + [mv] && [mv, mv] == [mv] + [mv] && [mv] == [] + [mv];
  }

  lemma OneCheck(pct: Percent, s: System, i: nat, seen: Observation, now: int)
    requires i < |s.drivers| && s.drivers[i].Ready() && s.drivers[i].phase == Observing
    requires s.drivers[i].unit in s.fleet.units && s.drivers[i].unit in s.fleet.checks
    ensures var mv, d := Move(i, seen, None, now), s.drivers[i];
            var t := StepSystem(pct, StepSystem(pct, StepSystem(pct, s, mv), mv), mv);
            && |t.drivers| == |s.drivers|
            && (forall j :: 0 <= j < |s.drivers| && j != i ==> t.drivers[j] == s.drivers[j])
            && t.fleet.units.Keys == s.fleet.units.Keys && t.fleet.speeds == s.fleet.speeds
            && t.fleet.checks == s.fleet.checks[d.unit := s.fleet.checks[d.unit] + [CheckSample(now, seen.success)]]
  {
    hide Step, DispatchEvent, After;
  }

  /** The first check of another driver on the same unit: driver i has done
      nothing, yet its entry holds a check. */
  lemma ForeignCheck(pct: Percent, specs: seq<Spec>, i: nat, j: nat, seen: Observation, now: int)
    requires i < |specs| && j < |specs| && i != j && specs[i].unit == specs[j].unit
    ensures var s := Exec(pct, Launch(specs), CheckMoves(j, seen, now));
            && |s.drivers| == |specs|
            && s.drivers[i] == NewDriver(specs[i].unit, specs[i].role, specs[i].cfg)
            && EntryOf(s.fleet, specs[i].unit).Some?
            && |EntryOf(s.fleet, specs[i].unit).value.checks| == 1
  {
    hide Exec, StepSystem, Run;
    FreshEntries(specs, i);
    ExecThree(pct, Launch(specs), Move(j, seen, None, now));
    OneCheck(pct, Launch(specs), j, seen, now);
  }

  /** After these moves, driver i's entry reflects what driver i did. */
  predicate EntryIsOwn(pct: Percent, specs: seq<Spec>, moves: seq<Move>, i: nat)
    requires i < |specs|
  {
    var s := Exec(pct, Launch(specs), moves);
    && |s.drivers| == |specs|
    && Reflected(pct, s.drivers[i], EntryOf(s.fleet, specs[i].unit))
  }

  /** After these moves, driver i and its entry are as if it had run alone. */
  predicate RanAlone(pct: Percent, specs: seq<Spec>, moves: seq<Move>, i: nat)
    requires i < |specs|
  {
    var s, alone := Exec(pct, Launch(specs), moves), Exec(pct, Launch(specs), OwnMoves(moves, i));
    && |s.drivers| == |alone.drivers| == |specs|
    && Slice(s, i) == Slice(alone, i)
  }

  lemma NotOwn(moves: seq<Move>, mv: Move, i: nat)
    requires mv.id != i
    ensures OwnMoves(moves + [mv], i) == OwnMoves(moves, i)
  {
    assert (moves + [mv])[..|moves|] == moves;
  }

  lemma ForeignCheckShows(pct: Percent, specs: seq<Spec>, i: nat, j: nat) returns (moves: seq<Move>)
    requires i < |specs| && j < |specs| && i != j && specs[i].unit == specs[j].unit
    ensures !EntryIsOwn(pct, specs, moves, i) && !RanAlone(pct, specs, moves, i)
  {
    hide Run, StepSystem;
    var seen := Observation(true, 0);
    moves := CheckMoves(j, seen, 0);
    ForeignCheck(pct, specs, i, j, seen, 0);
    FreshEntries(specs, i);
    var mv := Move(j, seen, None, 0);
    NotOwn([], mv, i);
    NotOwn([mv], mv, i);
    NotOwn([mv, mv], mv, i);
    assert moves == [mv, mv] + [mv] && [mv, mv] == [mv] + [mv] && [mv] == [] + [mv];
  }

  /** For every launch and driver: its entry reflects it, and nothing others do
      can be noticed, in all interleavings exactly if no other driver was given
      its unit name. */
  lemma EntryIsOwnIffUnitIs(pct: Percent, specs: seq<Spec>, i: nat)
    requires i < |specs|
    ensures (forall moves: seq<Move> :: EntryIsOwn(pct, specs, moves, i)) <==> OwnsUnit(specs, i)
    ensures (forall moves: seq<Move> :: RanAlone(pct, specs, moves, i)) <==> OwnsUnit(specs, i)
  {
    hide EntryIsOwn, RanAlone;
    if OwnsUnit(specs, i) {
      forall moves: seq<Move> ensures EntryIsOwn(pct, specs, moves, i) && RanAlone(pct, specs, moves, i) {
        OwnUnitSuffices(pct, specs, moves, i);
      }
    } else {
      var j: nat :| j < |specs| && j != i && specs[j].unit == specs[i].unit;
      var moves := ForeignCheckShows(pct, specs, i, j);
    }
  }

  lemma OwnUnitSuffices(pct: Percent, specs: seq<Spec>, moves: seq<Move>, i: nat)
    requires i < |specs| && OwnsUnit(specs, i)
    ensures EntryIsOwn(pct, specs, moves, i) && RanAlone(pct, specs, moves, i)
  {
    hide Exec, Launch, Slice, Reflected, Coherent, EntryOf, WellFormed;
    DriversDoNotInterfere(pct, specs, moves, i);
    var d := DriverAt(pct, specs, moves, i);
  }
}
