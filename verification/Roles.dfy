/** The check roles as the program runs them, one whole check per tick
    (internal/roles/internet_check.go, internal/roles/speed_check.go). */
module Roles {
  import opened Logs
  import opened RollingWindow
  import opened History
  import opened AlertMachine
  import opened AlertTheorems
  import opened Alerts
  import opened RoundRobin
  import opened FleetRegistry
  import Drivers

  /** A role's view of its own slot in the registry. */
  class Handle {
    const reg: Registry
    const name: Name

    constructor (reg: Registry, name: Name)
      ensures this.reg == reg && this.name == name
    {
      this.reg, this.name := reg, name;
    }

    /** Copies the machine's current status into the slot. */
    method Update(sm: StateMachine)
      requires sm.Valid() && reg.Valid()
      modifies reg
      ensures reg.Valid() && reg.Repr == old(reg.Repr)
      ensures reg.fleet == Apply(old(reg.fleet), Op.Update(Drivers.ViewOf(sm.pct, name, sm.cfg, sm.log)))
    {
      hide Apply, After, CountTrue, Outcomes, LastSuccess, StateMachine.Valid, Registry.Valid;
      sm.FieldsMean();
      var availability := sm.ReportAvailability();
      reg.Set(UnitStatus(name, sm.state, sm.window != null, availability, sm.consecutive, sm.lastSuccess));
    }
  }

  /** The registry after one whole check of a unit: status, check, throughput. */
  function AfterCheck(f: Fleet, status: UnitStatus, check: CheckSample, mbps: Option<real>): Fleet {
    var g := Apply(Apply(f, Op.Update(status)), Op.RecordCheck(status.name, check));
    if mbps.Some? then Apply(g, Op.RecordSpeed(status.name, SpeedSample(check.time, mbps.value))) else g
  }

  /** One check leaves every other unit alone; its own unit shows the status and
      one more sample of each kind taken, all at the recorded time. */
  lemma OneCheckRecorded(f: Fleet, status: UnitStatus, success: bool, mbps: Option<real>, now: int, other: Name)
    requires WellFormed(f) && EntryOf(f, status.name).Some?
    ensures var g, e := AfterCheck(f, status, CheckSample(now, success), mbps), EntryOf(f, status.name).value;
            && EntryOf(g, status.name) == Some(Entry(
                 status,
                 e.checks + [CheckSample(now, success)],
                 if mbps.Some? then e.speeds + [SpeedSample(now, mbps.value)] else e.speeds))
            && (other != status.name ==> EntryOf(g, other) == EntryOf(f, other))
            && g.order == f.order
  {
  }

  /** Footprints that a check may change stay apart. */
  ghost predicate Apart(role: object, sm: StateMachine, reg: Registry)
    reads reg
  {
    && role !in sm.Repr() && role !in reg.Repr && role != reg
    && sm.Repr() !! reg.Repr && reg !in sm.Repr()
  }

  /** What every role does with the outcome of one check: step its machine,
      publish the status, record the check and any measured throughput, and
      build the alert to dispatch. */
  method FinishCheck(role: string, sm: StateMachine, handle: Handle, success: bool, mbps: Option<real>,
                     seenAt: int, now: int) returns (alert: Option<Alert>)
    requires sm.Valid() && handle.reg.Valid() && sm.Repr() !! handle.reg.Repr && handle.reg !in sm.Repr()
    modifies sm.Repr(), handle.reg, handle.reg.Repr
    ensures sm.Valid() && handle.reg.Valid() && handle.reg.Repr == old(handle.reg.Repr)
    ensures sm.log == old(sm.log) + [Observation(success, seenAt)]
    ensures handle.reg.fleet ==
            AfterCheck(old(handle.reg.fleet), Drivers.ViewOf(sm.pct, handle.name, sm.cfg, sm.log),
                       CheckSample(now, success), mbps)
    ensures alert == DispatchEvent(role, EventOn(sm.cfg, sm.pct, Outcomes(old(sm.log)), success),
                                   After(sm.cfg, sm.pct, Outcomes(sm.log)).consecutive)
  {
    hide Apply, After, EventOn, CountTrue, Outcomes, LastSuccess, DispatchEvent, StateMachine.Valid,
         Registry.Valid;
    var ev := sm.Observe(success, seenAt);
    sm.FieldsMean();
    StatusIsNamed(sm.pct, handle.name, sm.cfg, sm.log);
    handle.Update(sm);
    handle.reg.RecordCheck(handle.name, now, success);
    if mbps.Some? {
      handle.reg.RecordSpeed(handle.name, now, mbps.value);
    }
    alert := DispatchEvent(role, ev, sm.consecutive);
  }

  lemma StatusIsNamed(pct: Percent, name: Name, cfg: Config, log: seq<Observation>)
    ensures Drivers.ViewOf(pct, name, cfg, log).name == name
  {
  }

  /** n steps of one driver in a row, all given the same check and clock reading. */
  function Steps(pct: Percent, d: Drivers.Driver, f: Fleet, seen: Observation, mbps: Option<real>, now: int, n: nat)
    : (Drivers.Driver, Fleet)
    decreases n
  {
    if n == 0 || !d.Ready() then (d, f)
    else
      var (d', op) := Drivers.Advance(pct, d, seen, mbps, now);
      Steps(pct, d', Drivers.Effect(f, op), seen, mbps, now, n - 1)
  }

  /** An uninterrupted run of a concurrent driver's steps is exactly what
      FinishCheck does: same registry, same log, same alert. */
  lemma UninterruptedStepsAreOneCheck(pct: Percent, d: Drivers.Driver, f: Fleet, seen: Observation,
                                      mbps: Option<real>, now: int)
    requires Drivers.Coherent(pct, d) && d.phase == Drivers.Observing
    ensures var (d', f') := Steps(pct, d, f, seen, mbps, now, if mbps.Some? then 5 else 4);
            && d'.phase == Drivers.Observing && d'.log == d.log + [seen]
            && f' == AfterCheck(f, Drivers.ViewOf(pct, d.unit, d.cfg, d'.log), CheckSample(now, seen.success), mbps)
            && d'.sent == d.sent + Drivers.ToSeq(DispatchEvent(
                 d.role, EventOn(d.cfg, pct, Outcomes(d.log), seen.success),
                 After(d.cfg, pct, Outcomes(d'.log)).consecutive))
  {
    hide Apply, After, EventOn, Step, DispatchEvent, AlertLog, LastSuccess, Outcomes, Availability;
    ObservationPush(d.log, seen);
    AfterPush(d.cfg, pct, Outcomes(d.log), seen.success);
    Drivers.EventOnMeans(d.cfg, pct, Outcomes(d.log), seen.success);
    var (d1, _) := Drivers.Advance(pct, d, seen, mbps, now);
    var (d2, op2) := Drivers.Advance(pct, d1, seen, mbps, now);
    var f2 := Drivers.Effect(f, op2);
    var (d3, op3) := Drivers.Advance(pct, d2, seen, mbps, now);
    var f3 := Drivers.Effect(f2, op3);
    if mbps.Some? {
      var (d4, op4) := Drivers.Advance(pct, d3, seen, mbps, now);
      var f4 := Drivers.Effect(f3, op4);
      var (d5, _) := Drivers.Advance(pct, d4, seen, mbps, now);
      assert Steps(pct, d4, f4, seen, mbps, now, 1) == (d5, f4);
      assert Steps(pct, d3, f3, seen, mbps, now, 2) == (d5, f4);
      assert Steps(pct, d2, f2, seen, mbps, now, 3) == (d5, f4);
      assert Steps(pct, d1, f, seen, mbps, now, 4) == (d5, f4);
    } else {
      var (d4, _) := Drivers.Advance(pct, d3, seen, mbps, now);
      assert Steps(pct, d3, f3, seen, mbps, now, 1) == (d4, f3);
      assert Steps(pct, d2, f2, seen, mbps, now, 2) == (d4, f3);
      assert Steps(pct, d1, f, seen, mbps, now, 3) == (d4, f3);
    }
  }

  class InternetCheck {
    const sites: seq<string>
    const sm: StateMachine
    const handle: Handle
    var next: nat

    ghost predicate Valid()
      reads this, sm.Repr(), handle.reg, handle.reg.Repr
    {
      && sm.Valid() && handle.reg.Valid()
      && Apart(this, sm, handle.reg)
    }

    constructor (sites: seq<string>, cfg: Config, pct: Percent, reg: Registry)
      requires reg.Valid()
      modifies reg
      ensures Valid() && fresh(sm.Repr()) && fresh(reg.Repr - old(reg.Repr))
      ensures this.sites == sites && next == 0
      ensures sm.cfg == cfg && sm.pct == pct && sm.log == []
      ensures handle.reg == reg && handle.name == Name("internet_check")
      ensures reg.fleet == Apply(old(reg.fleet), Op.Register(Name("internet_check")))
    {
      hide Apply, After, LastSuccess, Outcomes, LastN, Availability, Stores, WellFormed;
      var m := new StateMachine(cfg, pct);
      reg.Register(Name("internet_check"));
      var h := new Handle(reg, Name("internet_check"));
      this.sites, this.sm, this.handle, this.next := sites, m, h, 0;
    }

    /** The next site in turn; with no sites there is no next one. */
    method NextSite() returns (site: string)
      requires sites != []
      modifies `next
      ensures site == sites[old(next) % |sites|] && next == old(next) + 1
    {
      site := sites[next % |sites|];
      next := next + 1;
    }

    /** One tick. `reachable` is what probing each site would now come to. */
    method RunCheck(reachable: string -> bool, seenAt: int, now: int) returns (alert: Option<Alert>)
      requires Valid() && sites != []
      modifies `next, sm.Repr(), handle.reg, handle.reg.Repr
      ensures Valid() && handle.reg.Repr == old(handle.reg.Repr)
      ensures next == old(next) + 1
      ensures var success := reachable(sites[old(next) % |sites|]);
              && sm.log == old(sm.log) + [Observation(success, seenAt)]
              && handle.reg.fleet ==
                 AfterCheck(old(handle.reg.fleet), Drivers.ViewOf(sm.pct, handle.name, sm.cfg, sm.log),
                            CheckSample(now, success), None)
              && alert == DispatchEvent("internet_check", EventOn(sm.cfg, sm.pct, Outcomes(old(sm.log)), success),
                                        After(sm.cfg, sm.pct, Outcomes(sm.log)).consecutive)
    {
      hide AfterCheck, After, EventOn, Outcomes, DispatchEvent, Drivers.ViewOf, StateMachine.Valid,
           Registry.Valid;
      var site := NextSite();
      alert := FinishCheck("internet_check", sm, handle, reachable(site), None, seenAt, now);
    }

    /** A run of ticks while every site keeps its status: the machine sees the
        round-robin schedule and each of its state changes is alerted. */
    method Run(ticks: nat, reachable: string -> bool, clock: nat -> int) returns (alerts: seq<Alert>)
      requires Valid() && sites != [] && next == 0 && sm.log == []
      modifies `next, sm.Repr(), handle.reg, handle.reg.Repr
      ensures Valid() && next == ticks
      ensures Outcomes(sm.log) == Probes(Cyclic(Statuses(reachable)), ticks)
      ensures alerts == AlertLog("internet_check", sm.cfg, sm.pct, Outcomes(sm.log))
    {
      hide Apply, After, EventOn, CountTrue, LastSuccess, DispatchEvent, AfterCheck, Outcomes, AlertLog, Cyclic, Probes;
      alerts := [];
      StartOfRun(sm.log, reachable, sm.cfg, sm.pct);
      for k := 0 to ticks
        modifies `next, sm.Repr(), handle.reg, handle.reg.Repr
        invariant Valid() && next == k && handle.reg.Repr == old(handle.reg.Repr)
        invariant Outcomes(sm.log) == Probes(Cyclic(Statuses(reachable)), k)
        invariant alerts == AlertLog("internet_check", sm.cfg, sm.pct, Outcomes(sm.log))
      {
        ghost var log := sm.log;
        var alert := RunCheck(reachable, clock(2 * k), clock(2 * k + 1));
        ghost var success := reachable(sites[k % |sites|]);
        ObservationPush(log, Observation(success, clock(2 * k)));
        ProbesPush(Cyclic(Statuses(reachable)), k);
        SiteStatus(reachable, k);
        AlertLogPush("internet_check", sm.cfg, sm.pct, Outcomes(log), success);
        alerts := alerts + if alert.Some? then [alert.value] else [];
      }
    }

    /** Which of the configured sites are up. */
    function Statuses(reachable: string -> bool): (up: seq<bool>)
      ensures |up| == |sites|
    {
      seq(|sites|, i requires 0 <= i < |sites| => reachable(sites[i]))
    }

    lemma SiteStatus(reachable: string -> bool, k: nat)
      requires sites != []
      ensures Cyclic(Statuses(reachable))(k) == reachable(sites[k % |sites|])
    {
    }

    lemma StartOfRun(log: seq<Observation>, reachable: string -> bool, cfg: Config, pct: Percent)
      requires sites != [] && log == []
      ensures Outcomes(log) == Probes(Cyclic(Statuses(reachable)), 0)
      ensures AlertLog("internet_check", cfg, pct, Outcomes(log)) == []
    {
    }
  }

  class SpeedCheck {
    const threshold: real
    const sm: StateMachine
    const handle: Handle

    ghost predicate Valid()
      reads this, sm.Repr(), handle.reg, handle.reg.Repr
    {
      sm.Valid() && handle.reg.Valid() && Apart(this, sm, handle.reg)
    }

    constructor (threshold: real, cfg: Config, pct: Percent, reg: Registry)
      requires reg.Valid()
      modifies reg
      ensures Valid() && fresh(sm.Repr()) && fresh(reg.Repr - old(reg.Repr))
      ensures this.threshold == threshold
      ensures sm.cfg == cfg && sm.pct == pct && sm.log == []
      ensures handle.reg == reg && handle.name == Name("speed_check")
      ensures reg.fleet == Apply(old(reg.fleet), Op.Register(Name("speed_check")))
    {
      hide Apply, After, LastSuccess, Outcomes, LastN, Availability, Stores, WellFormed;
      var m := new StateMachine(cfg, pct);
      reg.Register(Name("speed_check"));
      var h := new Handle(reg, Name("speed_check"));
      this.threshold, this.sm, this.handle := threshold, m, h;
    }

    /** One tick. `measured` is the throughput, or nothing when measuring failed.
        A real measurement is recorded even when it is below the threshold. */
    method RunCheck(measured: Option<real>, seenAt: int, now: int) returns (alert: Option<Alert>)
      requires Valid()
      modifies sm.Repr(), handle.reg, handle.reg.Repr
      ensures Valid() && handle.reg.Repr == old(handle.reg.Repr)
      ensures var success := measured.Some? && measured.value >= threshold;
              && sm.log == old(sm.log) + [Observation(success, seenAt)]
              && handle.reg.fleet ==
                 AfterCheck(old(handle.reg.fleet), Drivers.ViewOf(sm.pct, handle.name, sm.cfg, sm.log),
                            CheckSample(now, success), measured)
              && alert == DispatchEvent("speed_check", EventOn(sm.cfg, sm.pct, Outcomes(old(sm.log)), success),
                                        After(sm.cfg, sm.pct, Outcomes(sm.log)).consecutive)
    {
      hide AfterCheck, After, EventOn, Outcomes, DispatchEvent, Drivers.ViewOf, StateMachine.Valid,
           Registry.Valid;
      var success;
      if measured.None? {
        success := false;
      } else if measured.value < threshold {
        success := false;
      } else {
        success := true;
      }
      alert := FinishCheck("speed_check", sm, handle, success, measured, seenAt, now);
    }
  }
}
