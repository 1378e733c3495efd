/** The fleet-wide registry (internal/monitor/registry.go). Every method runs
    under one mutex in the source, so every method here is one atomic step. */
module FleetRegistry {
  import opened Logs
  import opened RollingWindow
  import opened History
  import opened AlertMachine

  /** A unit's name, compared as a whole. */
  datatype Name = Name(text: string)

  datatype UnitStatus = UnitStatus(
    name: Name,
    state: State,
    hasWindow: bool,
    availability: real,
    consecutive: nat,
    lastSuccess: Option<int>)

  /** The slot of a unit that was registered and never updated. */
  function InitialStatus(name: Name): UnitStatus {
    UnitStatus(name, Healthy, false, 0.0, 0, None)
  }

  /** The registry as a value: `checks` and `speeds` hold everything recorded. */
  datatype Fleet = Fleet(
    order: seq<Name>,
    units: map<Name, UnitStatus>,
    checks: map<Name, seq<CheckSample>>,
    speeds: map<Name, seq<SpeedSample>>)

  const EMPTY := Fleet([], map[], map[], map[])

  datatype Op =
    | Register(name: Name)
    | Update(status: UnitStatus)
    | RecordCheck(name: Name, check: CheckSample)
    | RecordSpeed(name: Name, speed: SpeedSample)
  {
    function Unit(): Name {
      if Update? then status.name else name
    }
  }

  function Apply(f: Fleet, op: Op): Fleet {
    match op
    case Register(name) =>
      if name in f.units then f
      else Fleet(f.order + [name], f.units[name := InitialStatus(name)], f.checks[name := []], f.speeds[name := []])
    case Update(status) =>
      if status.name in f.units then f.(units := f.units[status.name := status]) else f
    case RecordCheck(name, check) =>
      if name in f.checks then f.(checks := f.checks[name := f.checks[name] + [check]]) else f
    case RecordSpeed(name, speed) =>
      if name in f.speeds then f.(speeds := f.speeds[name := f.speeds[name] + [speed]]) else f
  }

  /** The registry after any interleaving of calls, flattened to one sequence. */
  function Run(ops: seq<Op>): Fleet {
    if ops == [] then EMPTY else Apply(Run(ops[..|ops| - 1]), ops[|ops| - 1])
  }

  lemma RunPush(ops: seq<Op>, op: Op)
    ensures Run(ops + [op]) == Apply(Run(ops), op)
  {
    hide Apply;
    assert (ops + [op])[..|ops|] == ops;
  }

  // ----- aggregates -----

  datatype SpeedStats = SpeedStats(count: nat, min: real, avg: real, max: real, latest: real)

  datatype UnitSummary = UnitSummary(
    status: UnitStatus,
    historyAvailability: real,
    speed: Option<SpeedStats>,
    checks: seq<CheckSample>,
    speeds: seq<SpeedSample>)

  function Successes(samples: seq<CheckSample>): (s: seq<bool>)
    ensures |s| == |samples|
  {
    seq(|samples|, i requires 0 <= i < |samples| => samples[i].success)
  }

  function SumMbps(samples: seq<SpeedSample>): real {
    if samples == [] then 0.0 else SumMbps(samples[..|samples| - 1]) + samples[|samples| - 1].mbps
  }

  /** What the speed aggregates must be; no samples means no aggregates. */
  predicate Aggregates(samples: seq<SpeedSample>, stats: Option<SpeedStats>) {
    match stats
    case None => samples == []
    case Some(st) =>
      && samples != [] && st.count == |samples|
      && st.latest == samples[|samples| - 1].mbps
      && st.avg == SumMbps(samples) / |samples| as real
      && (exists i :: 0 <= i < |samples| && samples[i].mbps == st.min)
      && (exists i :: 0 <= i < |samples| && samples[i].mbps == st.max)
      && (forall i :: 0 <= i < |samples| ==> st.min <= samples[i].mbps <= st.max)
  }

  /** What Summary must report of a unit: its status and its newest 100 samples
      of each kind with their aggregates. */
  predicate Reports(f: Fleet, pct: Percent, name: Name, u: UnitSummary) {
    && name in f.units && name in f.checks && name in f.speeds
    && u.status == f.units[name]
    && u.checks == LastN(f.checks[name], HISTORY_CAP)
    && u.speeds == LastN(f.speeds[name], HISTORY_CAP)
    && u.historyAvailability == Availability(pct, Successes(u.checks))
    && Aggregates(u.speeds, u.speed)
  }

  method HistoryAvailability(pct: Percent, samples: seq<CheckSample>) returns (a: real)
    ensures a == Availability(pct, Successes(samples))
  {
    if |samples| == 0 {
      return 100.0;
    }
    var ok := 0;
    for i := 0 to |samples|
      invariant ok == CountTrue(Successes(samples[..i]))
    {
      assert Successes(samples[..i + 1]) == Successes(samples[..i]) + [samples[i].success];
      CountPush(Successes(samples[..i]), samples[i].success);
      if samples[i].success {
        ok := ok + 1;
      }
    }
    assert samples[..|samples|] == samples;
    return pct(ok, |samples|);
  }

  method SpeedStatsOf(samples: seq<SpeedSample>) returns (stats: Option<SpeedStats>)
    ensures Aggregates(samples, stats)
  {
    if |samples| == 0 {
      return None;
    }
    var min, max := samples[0].mbps, samples[0].mbps;
    var sum := 0.0;
    ghost var iMin, iMax := 0, 0;
    for i := 0 to |samples|
      invariant sum == SumMbps(samples[..i])
      invariant 0 <= iMin < |samples| && samples[iMin].mbps == min
      invariant 0 <= iMax < |samples| && samples[iMax].mbps == max
      invariant forall k :: 0 <= k < i ==> min <= samples[k].mbps <= max
    {
      assert samples[..i + 1][..i] == samples[..i];
      sum := sum + samples[i].mbps;
      if samples[i].mbps < min {
        min, iMin := samples[i].mbps, i;
      }
      if samples[i].mbps > max {
        max, iMax := samples[i].mbps, i;
      }
    }
    assert samples[..|samples|] == samples;
    stats := Some(SpeedStats(|samples|, min, sum / |samples| as real, max, samples[|samples| - 1].mbps));
  }

  /** The sum is the additive one. */
  lemma {:induction false} SumIsAdditive(s: seq<SpeedSample>, t: seq<SpeedSample>)
    ensures SumMbps(s + t) == SumMbps(s) + SumMbps(t)
    ensures |s| == 1 ==> SumMbps(s) == s[0].mbps
  {
    if t == [] {
      assert s + t == s;
    } else {
      assert (s + t)[..|s + t| - 1] == s + t[..|t| - 1];
      SumIsAdditive(s, t[..|t| - 1]);
    }
  }

  lemma {:induction false} SumIsBounded(samples: seq<SpeedSample>, min: real, max: real)
    requires forall i :: 0 <= i < |samples| ==> min <= samples[i].mbps <= max
    ensures min * |samples| as real <= SumMbps(samples) <= max * |samples| as real
  {
    if samples != [] {
      var n := |samples| - 1;
      SumIsBounded(samples[..n], min, max);
      assert min * (n + 1) as real == min * n as real + min && max * (n + 1) as real == max * n as real + max;
    }
  }

  lemma NoLessIfScaled(x: real, y: real, n: real)
    requires n > 0.0 && x * n <= y * n
    ensures x <= y
  {
  }

  /** The reported average lies between the reported extremes. */
  lemma AverageIsBetween(samples: seq<SpeedSample>, st: SpeedStats)
    requires Aggregates(samples, Some(st))
    ensures st.min <= st.avg <= st.max && st.min <= st.latest <= st.max
  {
    hide SumMbps;
    SumIsBounded(samples, st.min, st.max);
    var n := |samples| as real;
    assert st.avg * n == SumMbps(samples);
    NoLessIfScaled(st.min, st.avg, n);
    NoLessIfScaled(st.avg, st.max, n);
  }

  // ----- every interleaving of calls -----

  /** The registration order lists every unit once, and both histories exist
      for exactly the registered units. */
  ghost predicate WellFormed(f: Fleet) {
    && (forall i, j :: 0 <= i < j < |f.order| ==> f.order[i] != f.order[j])
    && (forall n :: n in f.order <==> n in f.units)
    && f.units.Keys == f.checks.Keys == f.speeds.Keys
    && (forall n :: n in f.units ==> f.units[n].name == n)
  }

  lemma AppendNew(order: seq<Name>, name: Name)
    requires name !in order
    requires forall i, j :: 0 <= i < j < |order| ==> order[i] != order[j]
    ensures var longer := order + [name];
            && (forall i, j :: 0 <= i < j < |longer| ==> longer[i] != longer[j])
            && (forall n :: n in longer <==> n in order || n == name)
  {
  }

  lemma RegisterKeepsWellFormed(f: Fleet, name: Name)
    requires WellFormed(f) && name !in f.units
    ensures WellFormed(Apply(f, Register(name)))
  {
    AppendNew(f.order, name);
    var g := Apply(f, Register(name));
    assert g.units.Keys == f.units.Keys + {name};
    assert g.checks.Keys == f.checks.Keys + {name};
    assert g.speeds.Keys == f.speeds.Keys + {name};
  }

  lemma ApplyKeepsWellFormed(f: Fleet, op: Op)
    requires WellFormed(f)
    ensures WellFormed(Apply(f, op)) && f.order <= Apply(f, op).order
  {
    if op.Register? && op.name !in f.units {
      hide WellFormed;
      RegisterKeepsWellFormed(f, op.name);
    } else {
      assert Apply(f, op).order == f.order;
    }
  }

  lemma {:induction false} RunWellFormed(ops: seq<Op>)
    ensures WellFormed(Run(ops))
  {
    if ops != [] {
      hide Apply;
      RunWellFormed(ops[..|ops| - 1]);
      ApplyKeepsWellFormed(Run(ops[..|ops| - 1]), ops[|ops| - 1]);
    }
  }

  /** Registration order only ever grows at its end. */
  lemma {:induction false} OrderOnlyGrows(ops: seq<Op>, more: seq<Op>)
    ensures Run(ops).order <= Run(ops + more).order
  {
    hide Apply, WellFormed, Run;
    if more == [] {
      assert ops + more == ops;
    } else {
      var more', op := more[..|more| - 1], more[|more| - 1];
      OrderOnlyGrows(ops, more');
      assert ops + more == (ops + more') + [op];
      RunPush(ops + more', op);
      RunWellFormed(ops + more');
      ApplyKeepsWellFormed(Run(ops + more'), op);
    }
  }

  /** Everything the registry holds of one unit. */
  datatype Entry = Entry(status: UnitStatus, checks: seq<CheckSample>, speeds: seq<SpeedSample>)

  function EntryOf(f: Fleet, name: Name): Option<Entry> {
    if name in f.units && name in f.checks && name in f.speeds
    then Some(Entry(f.units[name], f.checks[name], f.speeds[name])) else None
  }

  /** The calls that concern one unit, in order. */
  function OpsOf(ops: seq<Op>, name: Name): seq<Op> {
    if ops == [] then []
    else OpsOf(ops[..|ops| - 1], name) + if ops[|ops| - 1].Unit() == name then [ops[|ops| - 1]] else []
  }

  lemma ApplyToOther(f: Fleet, op: Op, name: Name)
    requires op.Unit() != name
    ensures EntryOf(Apply(f, op), name) == EntryOf(f, name)
  {
  }

  lemma ApplyToOwn(f: Fleet, g: Fleet, op: Op)
    requires WellFormed(f) && WellFormed(g) && EntryOf(f, op.Unit()) == EntryOf(g, op.Unit())
    ensures EntryOf(Apply(f, op), op.Unit()) == EntryOf(Apply(g, op), op.Unit())
  {
  }

  /** Non-interference: whatever the other units' calls and however they
      interleave, a unit's entry is what its own calls alone produce. */
  lemma {:induction false} NonInterference(ops: seq<Op>, name: Name)
    ensures EntryOf(Run(ops), name) == EntryOf(Run(OpsOf(ops, name)), name)
  {
    if ops != [] {
      hide Apply, WellFormed, EntryOf, Run;
      var init, op := ops[..|ops| - 1], ops[|ops| - 1];
      NonInterference(init, name);
      RunPush(init, op);
      assert ops == init + [op];
      if op.Unit() == name {
        RunWellFormed(init);
        RunWellFormed(OpsOf(init, name));
        ApplyToOwn(Run(init), Run(OpsOf(init, name)), op);
        RunPush(OpsOf(init, name), op);
      } else {
        ApplyToOther(Run(init), op, name);
        assert OpsOf(ops, name) == OpsOf(init, name);
      }
    } else {
      assert OpsOf(ops, name) == ops;
    }
  }

  // ----- what an entry holds, read off the calls -----

  /** The unit's own calls since it was first registered. */
  function Since(ops: seq<Op>, name: Name): seq<Op> {
    if ops == [] then []
    else
      var init, op := ops[..|ops| - 1], ops[|ops| - 1];
      if Register(name) in init && op.Unit() == name then Since(init, name) + [op] else Since(init, name)
  }

  function LatestStatus(ops: seq<Op>, initial: UnitStatus): UnitStatus {
    if ops == [] then initial
    else if ops[|ops| - 1].Update? then ops[|ops| - 1].status
    else LatestStatus(ops[..|ops| - 1], initial)
  }

  function ChecksIn(ops: seq<Op>): seq<CheckSample> {
    if ops == [] then []
    else ChecksIn(ops[..|ops| - 1]) + if ops[|ops| - 1].RecordCheck? then [ops[|ops| - 1].check] else []
  }

  function SpeedsIn(ops: seq<Op>): seq<SpeedSample> {
    if ops == [] then []
    else SpeedsIn(ops[..|ops| - 1]) + if ops[|ops| - 1].RecordSpeed? then [ops[|ops| - 1].speed] else []
  }

  function EntrySince(since: seq<Op>, name: Name): Entry {
    Entry(LatestStatus(since, InitialStatus(name)), ChecksIn(since), SpeedsIn(since))
  }

  /** What a call does to its own unit's entry. */
  function EntryEffect(e: Entry, op: Op): Entry {
    match op
    case Update(status) => e.(status := status)
    case RecordCheck(_, c) => e.(checks := e.checks + [c])
    case RecordSpeed(_, x) => e.(speeds := e.speeds + [x])
    case Register(_) => e
  }

  lemma EntrySincePush(since: seq<Op>, op: Op, name: Name)
    ensures EntrySince(since + [op], name) == EntryEffect(EntrySince(since, name), op)
  {
    assert (since + [op])[..|since|] == since;
  }

  lemma ApplyToEntry(f: Fleet, op: Op)
    requires WellFormed(f)
    ensures EntryOf(Apply(f, op), op.Unit()) ==
            match EntryOf(f, op.Unit())
            case None => if op.Register? then Some(Entry(InitialStatus(op.name), [], [])) else None
            case Some(e) => Some(EntryEffect(e, op))
  {
  }

  /** After any interleaving of calls a unit is known exactly if it was ever
      registered; its status is the newest one set since, and its histories are
      all samples recorded since, in order. Earlier calls were dropped. */
  lemma {:induction false} EntryClosedForm(ops: seq<Op>, name: Name)
    ensures EntryOf(Run(ops), name) ==
            if Register(name) in ops then Some(EntrySince(Since(ops, name), name)) else None
  {
    hide Run, Apply, EntryOf, EntrySince, WellFormed;
    if ops == [] {
      NothingRun(name);
    } else {
      var init, op := ops[..|ops| - 1], ops[|ops| - 1];
      assert ops == init + [op];
      EntryClosedForm(init, name);
      RunPush(init, op);
      RunWellFormed(init);
      if op.Unit() == name {
        ApplyToEntry(Run(init), op);
        if Register(name) in init {
          EntrySincePush(Since(init, name), op, name);
        } else {
          NothingSince(init, name);
        }
      } else {
        ApplyToOther(Run(init), op, name);
      }
    }
  }

  lemma {:induction false} NothingSince(ops: seq<Op>, name: Name)
    requires Register(name) !in ops
    ensures Since(ops, name) == []
    ensures EntrySince(Since(ops, name), name) == Entry(InitialStatus(name), [], [])
  {
    if ops != [] {
      NothingSince(ops[..|ops| - 1], name);
    }
  }

  lemma NothingRun(name: Name)
    ensures EntryOf(Run([]), name) == None
  {
  }

  // ----- the shared object -----

  /** The two logs a fleet value keeps for a unit. */
  predicate Tracks(f: Fleet, name: Name, logs: (seq<CheckSample>, seq<SpeedSample>)) {
    && name in f.checks && name in f.speeds
    && logs == (f.checks[name], f.speeds[name])
  }

  lemma ApplyKeepsOtherLogs(f: Fleet, op: Op, name: Name, logs: (seq<CheckSample>, seq<SpeedSample>))
    requires Tracks(f, name, logs)
    requires op.Unit() != name || op.Update?
    ensures Tracks(Apply(f, op), name, logs)
  {
  }

  lemma ApplyExtendsLog(f: Fleet, op: Op, logs: (seq<CheckSample>, seq<SpeedSample>))
    requires (op.RecordCheck? || op.RecordSpeed?) && Tracks(f, op.Unit(), logs)
    ensures Apply(f, op).order == f.order && Apply(f, op).units == f.units
    ensures Tracks(Apply(f, op), op.Unit(),
                   if op.RecordCheck? then (logs.0 + [op.check], logs.1) else (logs.0, logs.1 + [op.speed]))
  {
  }

  lemma ApplyToUnknown(f: Fleet, op: Op)
    requires WellFormed(f) && op.Unit() !in f.units && !op.Register?
    ensures Apply(f, op) == f
  {
  }

  lemma ApplyRegisters(f: Fleet, name: Name)
    ensures name in f.units ==> Apply(f, Register(name)) == f
    ensures name !in f.units ==>
              && Apply(f, Register(name)).order == f.order + [name]
              && Apply(f, Register(name)).units == f.units[name := InitialStatus(name)]
              && Tracks(Apply(f, Register(name)), name, ([], []))
  {
  }

  /** Every unit has its own rings, apart from all others', holding its logs. */
  ghost predicate Stores(hs: map<Name, UnitHistory>, repr: set<object>, f: Fleet)
    reads repr
  {
    && (forall n :: n in hs ==> hs[n].Repr() <= repr)
    && (forall n, m :: n in hs && m in hs && n != m ==> hs[n].Repr() !! hs[m].Repr())
    && (forall n :: n in hs ==> hs[n].Valid() && Tracks(f, n, hs[n].Logs()))
  }

  lemma StoresMore(hs: map<Name, UnitHistory>, repr: set<object>, f: Fleet, name: Name, h: UnitHistory)
    requires Stores(hs, repr, f) && name !in hs && name !in f.units
    requires h.Valid() && h.Logs() == ([], []) && h.Repr() !! repr
    ensures Stores(hs[name := h], repr + h.Repr(), Apply(f, Register(name)))
  {
    hide Apply, Tracks, UnitHistory.Valid, UnitHistory.Logs, UnitHistory.Repr;
    ApplyRegisters(f, name);
    forall n | n in hs ensures Tracks(Apply(f, Register(name)), n, hs[n].Logs()) {
      ApplyKeepsOtherLogs(f, Register(name), n, hs[n].Logs());
    }
  }

  lemma StoresSame(hs: map<Name, UnitHistory>, repr: set<object>, f: Fleet, status: UnitStatus)
    requires Stores(hs, repr, f)
    ensures Stores(hs, repr, Apply(f, Update(status)))
  {
    hide Apply, Tracks, UnitHistory.Valid, UnitHistory.Logs, UnitHistory.Repr;
    forall n | n in hs ensures Tracks(Apply(f, Update(status)), n, hs[n].Logs()) {
      ApplyKeepsOtherLogs(f, Update(status), n, hs[n].Logs());
    }
  }

  /** Setting one unit's history aside before a call that only concerns it. */
  lemma StoresWithout(hs: map<Name, UnitHistory>, repr: set<object>, f: Fleet, op: Op)
    requires Stores(hs, repr, f) && op.Unit() in hs
    ensures Stores(hs - {op.Unit()}, repr - hs[op.Unit()].Repr(), Apply(f, op))
  {
    hide Apply, Tracks, UnitHistory.Valid, UnitHistory.Logs, UnitHistory.Repr;
    forall n | n in hs && n != op.Unit() ensures Tracks(Apply(f, op), n, hs[n].Logs()) {
      ApplyKeepsOtherLogs(f, op, n, hs[n].Logs());
    }
  }

  lemma StoresAgain(hs: map<Name, UnitHistory>, repr: set<object>, f: Fleet, name: Name)
    requires name in hs && hs[name].Repr() <= repr
    requires Stores(hs - {name}, repr - hs[name].Repr(), f)
    requires hs[name].Valid() && Tracks(f, name, hs[name].Logs())
    ensures Stores(hs, repr, f)
  {
    hide Tracks, UnitHistory.Valid, UnitHistory.Logs, UnitHistory.Repr;
    assert forall n :: n in hs && n != name ==> n in hs - {name} && (hs - {name})[n] == hs[n];
  }

  lemma StoresUnit(hs: map<Name, UnitHistory>, repr: set<object>, f: Fleet, name: Name)
    requires Stores(hs, repr, f) && name in hs
    ensures hs[name].Repr() <= repr && hs[name].Valid() && Tracks(f, name, hs[name].Logs())
  {
  }

  class Registry {
    var order: seq<Name>
    var units: map<Name, UnitStatus>
    var history: map<Name, UnitHistory>
    ghost var fleet: Fleet  // the registry as a value
    ghost var Repr: set<object>  // everything reachable from the histories

    ghost predicate Valid()
      reads this, Repr
    {
      && order == fleet.order && units == fleet.units
      && history.Keys == units.Keys
      && this !in Repr
      && Stores(history, Repr, fleet)
      && WellFormed(fleet)
    }

    constructor ()
      ensures Valid() && fresh(Repr) && fleet == EMPTY
    {
      order, units, history, fleet, Repr := [], map[], map[], EMPTY, {};
    }

    method Register(name: Name)
      requires Valid()
      modifies this
      ensures Valid() && fresh(Repr - old(Repr))
      ensures fleet == Apply(old(fleet), Op.Register(name))
      ensures name !in old(units) ==> units[name] == UnitStatus(name, Healthy, false, 0.0, 0, None)
    {
      hide WellFormed, Apply, Tracks, Stores, UnitHistory.Valid, UnitHistory.Logs, UnitHistory.Repr;
      ApplyRegisters(fleet, name);
      if name !in units {
        var h := new UnitHistory();
        ApplyKeepsWellFormed(fleet, Op.Register(name));
        StoresMore(history, Repr, fleet, name, h);
        order := order + [name];
        units := units[name := InitialStatus(name)];
        history := history[name := h];
        Repr := Repr + h.Repr();
        fleet := Apply(fleet, Op.Register(name));
      }
    }

    method Set(status: UnitStatus)
      requires Valid()
      modifies `units, `fleet
      ensures Valid() && Repr == old(Repr)
      ensures fleet == Apply(old(fleet), Update(status))
    {
      hide WellFormed, Tracks, Stores;
      ApplyKeepsWellFormed(fleet, Update(status));
      StoresSame(history, Repr, fleet, status);
      fleet := Apply(fleet, Update(status));
      if status.name in units {
        units := units[status.name := status];
      }
    }

    method RecordCheck(name: Name, t: int, success: bool)
      requires Valid()
      modifies Repr, `fleet
      ensures Valid() && Repr == old(Repr)
      ensures fleet == Apply(old(fleet), Op.RecordCheck(name, CheckSample(t, success)))
    {
      hide WellFormed, Apply, Tracks, Stores, UnitHistory.Valid, UnitHistory.Logs, UnitHistory.Repr;
      ghost var op := Op.RecordCheck(name, CheckSample(t, success));
      ApplyKeepsWellFormed(fleet, op);
      if name in history {
        StoresUnit(history, Repr, fleet, name);
        StoresWithout(history, Repr, fleet, op);
        ApplyExtendsLog(fleet, op, history[name].Logs());
        history[name].AddCheck(CheckSample(t, success));
        fleet := Apply(fleet, op);
        StoresAgain(history, Repr, fleet, name);
      } else {
        ApplyToUnknown(fleet, op);
      }
    }

    method RecordSpeed(name: Name, t: int, mbps: real)
      requires Valid()
      modifies Repr, `fleet
      ensures Valid() && Repr == old(Repr)
      ensures fleet == Apply(old(fleet), Op.RecordSpeed(name, SpeedSample(t, mbps)))
    {
      hide WellFormed, Apply, Tracks, Stores, UnitHistory.Valid, UnitHistory.Logs, UnitHistory.Repr;
      ghost var op := Op.RecordSpeed(name, SpeedSample(t, mbps));
      ApplyKeepsWellFormed(fleet, op);
      if name in history {
        StoresUnit(history, Repr, fleet, name);
        StoresWithout(history, Repr, fleet, op);
        ApplyExtendsLog(fleet, op, history[name].Logs());
        history[name].AddSpeed(SpeedSample(t, mbps));
        fleet := Apply(fleet, op);
        StoresAgain(history, Repr, fleet, name);
      } else {
        ApplyToUnknown(fleet, op);
      }
    }

    /** Every unit's status, in registration order. */
    method Snapshot() returns (out: seq<UnitStatus>)
      requires Valid()
      ensures |out| == |order|
      ensures forall i :: 0 <= i < |out| ==> out[i] == fleet.units[order[i]] && out[i].name == order[i]
    {
      out := [];
      for i := 0 to |order|
        invariant |out| == i
        invariant forall k :: 0 <= k < i ==> out[k] == units[order[k]] && out[k].name == order[k]
      {
        assert order[i] in fleet.units;
        out := out + [units[order[i]]];
      }
    }

    /** One turn of the loop that builds a summary. */
    method UnitReport(pct: Percent, name: Name) returns (u: UnitSummary)
      requires Valid() && name in history
      ensures Reports(fleet, pct, name, u)
    {
      var checks := history[name].checks.Slice();
      var speeds := history[name].speeds.Slice();
      var availability := HistoryAvailability(pct, checks);
      var stats := SpeedStatsOf(speeds);
      u := UnitSummary(units[name], availability, stats, checks, speeds);
    }

    /** Every unit's summary, in registration order. */
    method Summary(pct: Percent) returns (out: seq<UnitSummary>)
      requires Valid()
      ensures |out| == |order|
      ensures forall i :: 0 <= i < |out| ==> Reports(fleet, pct, order[i], out[i])
    {
      hide Reports, UnitHistory.Valid, UnitHistory.Logs, UnitHistory.Repr;
      out := [];
      for i := 0 to |order|
        invariant |out| == i
        invariant forall k :: 0 <= k < i ==> Reports(fleet, pct, order[k], out[k])
      {
        assert order[i] in fleet.units;
        var u := UnitReport(pct, order[i]);
        out := out + [u];
      }
    }
  }
}
