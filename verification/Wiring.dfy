/** From an accepted configuration to the drivers that run it
    (cmd/healthd/main.go with the role constructors in internal/roles). */
module Wiring {
  import opened Logs
  import opened RollingWindow
  import opened AlertMachine
  import opened AlertTheorems
  import opened FleetRegistry
  import Settings
  import Drivers
  import Delivery

  const PING_PREFIX := "ping_monitor:"
  const URL_PREFIX := "url_monitor:"

  function TargetSpecs(role: string, prefix: string, r: Settings.TargetRole): (specs: seq<Drivers.Spec>)
    ensures |specs| == if r.enabled then |r.targets| else 0
    ensures forall i :: 0 <= i < |specs| ==> specs[i].unit == Name(prefix + r.targets[i].address)
  {
    if !r.enabled then []
    else seq(|r.targets|, i requires 0 <= i < |r.targets| =>
           Drivers.Spec(Name(prefix + r.targets[i].address), role, Settings.MonitorConfig(r.targets[i].params)))
  }

  function SingleSpec(role: string, enabled: bool, params: Settings.MonitorParams): seq<Drivers.Spec> {
    if enabled then [Drivers.Spec(Name(role), role, Settings.MonitorConfig(params))] else []
  }

  /** The drivers the daemon starts, in the order it builds and registers them. */
  function DriverSpecs(c: Settings.Config): seq<Drivers.Spec> {
    TargetSpecs("ping_monitor", PING_PREFIX, c.ping) + TargetSpecs("url_monitor", URL_PREFIX, c.url)
    + SingleSpec("internet_check", c.internet.enabled, c.internet.params)
    + SingleSpec("speed_check", c.speed.enabled, c.speed.params)
  }

  /** No two enabled targets of a role have the same address. */
  predicate DistinctAddresses(r: Settings.TargetRole) {
    r.enabled ==> forall i, j :: 0 <= i < j < |r.targets| ==> r.targets[i].address != r.targets[j].address
  }

  /** Unit names of different roles never collide: they start differently. */
  lemma PrefixesTellRolesApart(a: string, b: string)
    ensures PING_PREFIX + a != URL_PREFIX + b
    ensures PING_PREFIX + a != "internet_check" && PING_PREFIX + a != "speed_check"
    ensures URL_PREFIX + a != "internet_check" && URL_PREFIX + a != "speed_check"
  {
    assert (PING_PREFIX + a)[0] == 'p' && (URL_PREFIX + a)[0] == 'u' && (URL_PREFIX + b)[0] == 'u';
    assert "internet_check"[0] == 'i' && "speed_check"[0] == 's' && "speed_check"[1] == 'p';
  }

  lemma SameNameSameAddress(prefix: string, a: string, b: string)
    ensures prefix + a == prefix + b <==> a == b
  {
    assert (prefix + a)[|prefix|..] == a && (prefix + b)[|prefix|..] == b;
  }

  /** Which part of the configuration driver i comes from, and its address there. */
  datatype Origin = Ping(address: string) | Url(address: string) | Internet | Speed

  function OriginOf(c: Settings.Config, i: nat): Origin
    requires i < |DriverSpecs(c)|
  {
    var nPing, nUrl := if c.ping.enabled then |c.ping.targets| else 0, if c.url.enabled then |c.url.targets| else 0;
    if i < nPing then Ping(c.ping.targets[i].address)
    else if i < nPing + nUrl then Url(c.url.targets[i - nPing].address)
    else if c.internet.enabled && i == nPing + nUrl then Internet
    else Speed
  }

  function UnitName(o: Origin): Name {
    match o
    case Ping(address) => Name("ping_monitor:" + address)
    case Url(address) => Name("url_monitor:" + address)
    case Internet => Name("internet_check")
    case Speed => Name("speed_check")
  }

  lemma UnitNameOf(c: Settings.Config, i: nat)
    requires i < |DriverSpecs(c)|
    ensures DriverSpecs(c)[i].unit == UnitName(OriginOf(c, i))
    ensures DriverSpecs(c)[i].role == match OriginOf(c, i)
                                      case Ping(_) => "ping_monitor"
                                      case Url(_) => "url_monitor"
                                      case Internet => "internet_check"
                                      case Speed => "speed_check"
  {
  }

  lemma UnitNameInjective(o: Origin, p: Origin)
    ensures UnitName(o) == UnitName(p) <==> o == p
  {
    var a, b := if o.Ping? || o.Url? then o.address else "", if p.Ping? || p.Url? then p.address else "";
    PrefixesTellRolesApart(a, b);
    PrefixesTellRolesApart(b, a);
    SameNameSameAddress(PING_PREFIX, a, b);
    SameNameSameAddress(URL_PREFIX, a, b);
  }

  /** Two drivers share a unit exactly if they come from two targets of the same
      role with the same address. */
  lemma SharedUnitIffSameTarget(c: Settings.Config, i: nat, j: nat)
    requires i < |DriverSpecs(c)| && j < |DriverSpecs(c)|
    ensures DriverSpecs(c)[i].unit == DriverSpecs(c)[j].unit <==> OriginOf(c, i) == OriginOf(c, j)
  {
    hide DriverSpecs, OriginOf, UnitName;
    UnitNameOf(c, i);
    UnitNameOf(c, j);
    UnitNameInjective(OriginOf(c, i), OriginOf(c, j));
  }

  ghost predicate AllOwnTheirUnits(specs: seq<Drivers.Spec>) {
    forall i :: 0 <= i < |specs| ==> Drivers.OwnsUnit(specs, i)
  }

  lemma SameOriginMeansDuplicate(c: Settings.Config, i: nat, j: nat)
    requires i < j < |DriverSpecs(c)| && OriginOf(c, i) == OriginOf(c, j)
    ensures !DistinctAddresses(c.ping) || !DistinctAddresses(c.url)
  {
    var nPing := if c.ping.enabled then |c.ping.targets| else 0;
    if OriginOf(c, i).Ping? {
      assert c.ping.targets[i].address == c.ping.targets[j].address;
    } else {
      assert c.url.targets[i - nPing].address == c.url.targets[j - nPing].address;
    }
  }

  lemma DuplicateMeansSameOrigin(c: Settings.Config) returns (i: nat, j: nat)
    requires !DistinctAddresses(c.ping) || !DistinctAddresses(c.url)
    ensures i < j < |DriverSpecs(c)| && OriginOf(c, i) == OriginOf(c, j)
  {
    var nPing := if c.ping.enabled then |c.ping.targets| else 0;
    if !DistinctAddresses(c.ping) {
      i, j :| 0 <= i < j < |c.ping.targets| && c.ping.targets[i].address == c.ping.targets[j].address;
    } else {
      i, j :| 0 <= i < j < |c.url.targets| && c.url.targets[i].address == c.url.targets[j].address;
      i, j := nPing + i, nPing + j;
    }
  }

  /** Every driver has its unit to itself exactly if no role lists an address twice. */
  lemma OwnUnitsIffDistinctAddresses(c: Settings.Config)
    ensures AllOwnTheirUnits(DriverSpecs(c)) <==> DistinctAddresses(c.ping) && DistinctAddresses(c.url)
  {
    hide DriverSpecs, OriginOf, DistinctAddresses;
    var specs := DriverSpecs(c);
    if !(DistinctAddresses(c.ping) && DistinctAddresses(c.url)) {
      var i, j := DuplicateMeansSameOrigin(c);
      SharedUnitIffSameTarget(c, i, j);
      assert !Drivers.OwnsUnit(specs, i);
    }
    if !AllOwnTheirUnits(specs) {
      var i: nat, j: nat :| i < |specs| && j < |specs| && j != i && specs[j].unit == specs[i].unit;
      SharedUnitIffSameTarget(c, i, j);
      if i < j {
        SameOriginMeansDuplicate(c, i, j);
      } else {
        SameOriginMeansDuplicate(c, j, i);
      }
    }
  }

  /** Whatever is scheduled, driver i's entry reflects what driver i did. */
  ghost predicate AlwaysOwn(pct: Percent, specs: seq<Drivers.Spec>, i: nat)
    requires i < |specs|
  {
    forall moves: seq<Drivers.Move> :: Drivers.EntryIsOwn(pct, specs, moves, i)
  }

  /** What the summaries of a running configuration show is, for every unit and
      in every interleaving, what that unit's driver did, exactly if no role
      lists an address twice. */
  lemma EntriesAreOwnIffDistinctAddresses(c: Settings.Config, pct: Percent)
    ensures (forall i :: 0 <= i < |DriverSpecs(c)| ==> AlwaysOwn(pct, DriverSpecs(c), i))
            <==> DistinctAddresses(c.ping) && DistinctAddresses(c.url)
  {
    hide DriverSpecs, DistinctAddresses, Drivers.EntryIsOwn, Drivers.RanAlone, Drivers.OwnsUnit;
    OwnUnitsIffDistinctAddresses(c);
    forall i | 0 <= i < |DriverSpecs(c)|
      ensures AlwaysOwn(pct, DriverSpecs(c), i) <==> Drivers.OwnsUnit(DriverSpecs(c), i)
    {
      Drivers.EntryIsOwnIffUnitIs(pct, DriverSpecs(c), i);
    }
  }

  /** A configuration with target k of ping_monitor listed once more. */
  function Duplicated(c: Settings.Config, k: nat): Settings.Config
    requires k < |c.ping.targets|
  {
    c.(ping := c.ping.(targets := c.ping.targets + [c.ping.targets[k]]))
  }

  /** Validation does not forbid it: any target of an accepted configuration can
      be listed twice, and then its drivers share a unit. */
  lemma DuplicateTargetsAreAccepted(c: Settings.Config, urlOk: string -> bool, k: nat)
    requires Settings.Load(c, urlOk).Some? && c.ping.enabled && k < |c.ping.targets|
    ensures var d := Settings.Load(Duplicated(c, k), urlOk);
            d.Some? && !DistinctAddresses(d.value.ping)
  {
    hide Settings.Load, Settings.AcceptableTarget, Settings.FilledFrom;
    var c' := Duplicated(c, k);
    assert forall t :: t in c'.ping.targets <==> t in c.ping.targets;
    Settings.LoadsIff(c, urlOk);
    Settings.LoadsIff(c', urlOk);
    Settings.LoadedConfig(c', urlOk);
    var d := Settings.Load(c', urlOk).value;
    assert d.ping.targets[k].address == d.ping.targets[|c.ping.targets|].address;
  }

  // ----- what an accepted configuration shows -----

  lemma DriverRunsUnit(c: Settings.Config, i: nat)
    requires i < |DriverSpecs(c)|
    ensures |DriverSpecs(c)| == |Settings.Units(c)|
    ensures DriverSpecs(c)[i].cfg == Settings.MonitorConfig(Settings.Units(c)[i])
  {
    hide Settings.MonitorConfig;
  }

  /** What a configuration asks to have watched. */
  predicate Watched(c: Settings.Config, o: Origin) {
    match o
    case Ping(address) => c.ping.enabled && exists t :: t in c.ping.targets && t.address == address
    case Url(address) => c.url.enabled && exists t :: t in c.url.targets && t.address == address
    case Internet => c.internet.enabled
    case Speed => c.speed.enabled
  }

  lemma WatchedIffStarted(c: Settings.Config, o: Origin)
    ensures Watched(c, o) <==> exists i :: 0 <= i < |DriverSpecs(c)| && DriverSpecs(c)[i].unit == UnitName(o)
  {
    hide DriverSpecs, UnitName;
    forall i | 0 <= i < |DriverSpecs(c)|
      ensures DriverSpecs(c)[i].unit == UnitName(o) <==> OriginOf(c, i) == o
    {
      UnitNameOf(c, i);
      UnitNameInjective(OriginOf(c, i), o);
    }
    WatchedIffOrigin(c, o);
  }

  lemma WatchedIffOrigin(c: Settings.Config, o: Origin)
    ensures Watched(c, o) <==> exists i :: 0 <= i < |DriverSpecs(c)| && OriginOf(c, i) == o
  {
    var nPing, nUrl := if c.ping.enabled then |c.ping.targets| else 0, if c.url.enabled then |c.url.targets| else 0;
    if Watched(c, o) {
      match o
      case Ping(address) =>
        var k :| 0 <= k < nPing && c.ping.targets[k].address == address;
        assert OriginOf(c, k) == o;
      case Url(address) =>
        var k :| 0 <= k < nUrl && c.url.targets[k].address == address;
        assert OriginOf(c, nPing + k) == o;
      case Internet =>
        assert OriginOf(c, nPing + nUrl) == o;
      case Speed =>
        assert OriginOf(c, |DriverSpecs(c)| - 1) == o;
    }
  }

  /** A summary of an accepted configuration lists a unit exactly if the
      configuration enables it. */
  lemma SummaryListsTheWatched(c: Settings.Config, urlOk: string -> bool, pct: Percent, moves: seq<Drivers.Move>,
                               o: Origin)
    requires Settings.Load(c, urlOk).Some?
    ensures var specs := DriverSpecs(Settings.Load(c, urlOk).value);
            UnitName(o) in Drivers.Exec(pct, Drivers.Launch(specs), moves).fleet.order <==> Watched(c, o)
  {
    hide DriverSpecs, UnitName, Watched, Settings.Load, Drivers.Exec, Drivers.Launch, Drivers.FirstOccurrences,
         Settings.FilledFrom;
    var d := Settings.Load(c, urlOk).value;
    Drivers.SummaryListsTheUnits(pct, DriverSpecs(d), moves);
    WatchedIffStarted(d, o);
    Settings.LoadedConfig(c, urlOk);
    WatchedStays(c, d, o);
  }

  lemma SameAddresses(profiles: map<string, Settings.MonitorParams>, r: Settings.TargetRole, s: Settings.TargetRole,
                      address: string)
    requires Settings.TargetsFilled(profiles, r, s)
    ensures (exists t :: t in s.targets && t.address == address) <==> (exists t :: t in r.targets && t.address == address)
  {
    hide Settings.FilledFrom;
    if i :| 0 <= i < |s.targets| && s.targets[i].address == address {
      assert r.targets[i] in r.targets && r.targets[i].address == address;
    }
    if i :| 0 <= i < |r.targets| && r.targets[i].address == address {
      assert s.targets[i] in s.targets && s.targets[i].address == address;
    }
  }

  lemma WatchedStays(c: Settings.Config, d: Settings.Config, o: Origin)
    requires Settings.TargetsFilled(c.profiles, c.ping, d.ping) && Settings.TargetsFilled(c.profiles, c.url, d.url)
    requires c.internet.enabled == d.internet.enabled && c.speed.enabled == d.speed.enabled
    ensures Watched(d, o) <==> Watched(c, o)
  {
    hide Settings.FilledFrom;
    if o.Ping? {
      SameAddresses(c.profiles, c.ping, d.ping, o.address);
    } else if o.Url? {
      SameAddresses(c.profiles, c.url, d.url, o.address);
    }
  }

  /** In every interleaving, the summary of a unit of an accepted configuration
      without duplicate addresses shows it unhealthy exactly if the unit's own
      parameters say so of all but at most the newest check, and counts the
      failures those end with. */
  lemma SummaryShowsHealth(c: Settings.Config, urlOk: string -> bool, pct: Percent, moves: seq<Drivers.Move>, i: nat,
                           u: UnitSummary) returns (log: seq<Observation>, k: nat)
    requires Settings.Load(c, urlOk).Some?
    requires var d := Settings.Load(c, urlOk).value;
             && DistinctAddresses(d.ping) && DistinctAddresses(d.url) && i < |DriverSpecs(d)|
             && Reports(Drivers.Exec(pct, Drivers.Launch(DriverSpecs(d)), moves).fleet, pct, DriverSpecs(d)[i].unit, u)
    ensures var d := Settings.Load(c, urlOk).value;
            var s := Drivers.Exec(pct, Drivers.Launch(DriverSpecs(d)), moves);
            && i < |s.drivers| && log == s.drivers[i].log
            && k <= |log| <= k + 1
            && (u.status.state == Unhealthy <==>
                  i < |Settings.Units(d)| && Settings.UnhealthyByParams(Settings.Units(d)[i], pct, Outcomes(log[..k])))
            && u.status.consecutive == TrailingFailures(Outcomes(log[..k]))
            && u.status.lastSuccess == LastSuccess(log[..k])
  {
    hide Settings.Load, Settings.Units, DriverSpecs, DistinctAddresses, Drivers.Exec, Drivers.OwnsUnit,
         Settings.UnhealthyByParams, After, TrailingFailures, LastSuccess, Outcomes, Failing, Reports;
    var d := Settings.Load(c, urlOk).value;
    var specs := DriverSpecs(d);
    OwnUnitsIffDistinctAddresses(d);
    DriverRunsUnit(d, i);
    Drivers.BoundedLag(pct, specs, moves, i, u);
    log := Drivers.Exec(pct, Drivers.Launch(specs), moves).drivers[i].log;
    k := Drivers.Exec(pct, Drivers.Launch(specs), moves).drivers[i].Published();
    Settings.AcceptedUnitStates(c, urlOk, i, pct, Outcomes(log[..k]));
    Drivers.StatusTellsTheLog(pct, specs[i].unit, specs[i].cfg, log[..k]);
    NothingSeen();
    StateClosedForm(specs[i].cfg, pct, Outcomes(log[..k]));
    Drivers.SlotIsFreshButForWindow(pct, specs[i].unit, specs[i].cfg);
  }

  /** An alert of an accepted unit skips no channel: every one the unit lists
      gets its delivery. */
  lemma EveryListedChannelIsServed(c: Settings.Config, urlOk: string -> bool, k: nat, dispatcher: Delivery.Dispatcher)
    requires Settings.Load(c, urlOk).Some? && k < |Settings.Units(Settings.Load(c, urlOk).value)|
    requires dispatcher.channels == c.channels
    ensures var notify := Settings.Units(Settings.Load(c, urlOk).value)[k].notify; dispatcher.Known(notify) == notify
  {
    hide Settings.Load, Settings.Units, Settings.FilledFrom;
    Settings.AcceptedUnitsAreSane(c, urlOk, k);
    Settings.LoadedConfig(c, urlOk);
    AllKnown(dispatcher, Settings.Units(Settings.Load(c, urlOk).value)[k].notify);
  }

  lemma {:induction false} AllKnown(dispatcher: Delivery.Dispatcher, names: seq<string>)
    requires forall i :: 0 <= i < |names| ==> names[i] in dispatcher.channels
    ensures dispatcher.Known(names) == names
  {
    hide Delivery.Dispatcher.Known;
    if names == [] {
      NoneKnown(dispatcher);
    } else {
      var init, last := names[..|names| - 1], names[|names| - 1];
      AllKnown(dispatcher, init);
      LastKnown(dispatcher, names);
      assert names == init + [last];
    }
  }

  lemma NoneKnown(dispatcher: Delivery.Dispatcher)
    ensures dispatcher.Known([]) == []
  {
  }

  lemma LastKnown(dispatcher: Delivery.Dispatcher, names: seq<string>)
    requires names != [] && names[|names| - 1] in dispatcher.channels
    ensures dispatcher.Known(names) == dispatcher.Known(names[..|names| - 1]) + [names[|names| - 1]]
  {
  }

  lemma NothingSeen()
    ensures Outcomes([]) == [] && TrailingFailures([]) == 0 && LastSuccess([]) == None
  {
  }
}
