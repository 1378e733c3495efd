/** Configuration: profile merge, defaults and validation
    (internal/config/config.go), and the bridge to the machines
    (cmd/healthd/main.go). */
module Settings {
  import opened Logs
  import opened RollingWindow
  import AlertMachine
  import AlertTheorems
  import Backoff

  const TRIGGER_CONSECUTIVE := "consecutive"
  const TRIGGER_AVAILABILITY := "availability"
  const DEFAULT_WINDOW_SIZE := 20
  const DEFAULT_SUMMARY_INTERVAL_S := 900

  /** Zero and empty values mean unset. */
  datatype MonitorParams = MonitorParams(
    intervalS: int,
    timeoutMS: int,
    failureThreshold: int,
    trigger: string,
    windowSize: int,
    minAvailability: real,
    notify: seq<string>,
    insecureSkipVerify: bool)

  const UNSET := MonitorParams(0, 0, 0, "", 0, 0.0, [], false)

  function Or<T(==)>(unset: T, a: T, b: T): T {
    if a == unset then b else a
  }

  /** Every field of p that is set wins; the others come from src. */
  function Merge(p: MonitorParams, src: MonitorParams): MonitorParams {
    MonitorParams(
      Or(0, p.intervalS, src.intervalS),
      Or(0, p.timeoutMS, src.timeoutMS),
      Or(0, p.failureThreshold, src.failureThreshold),
      Or("", p.trigger, src.trigger),
      Or(0, p.windowSize, src.windowSize),
      Or(0.0, p.minAvailability, src.minAvailability),
      Or([], p.notify, src.notify),
      p.insecureSkipVerify || src.insecureSkipVerify)
  }

  /** Merging is an idempotent monoid: order of folding does not matter, unset
      parameters change nothing, and inheriting twice is inheriting once. */
  lemma MergeAlgebra(p: MonitorParams, q: MonitorParams, r: MonitorParams)
    ensures Merge(Merge(p, q), r) == Merge(p, Merge(q, r))
    ensures Merge(UNSET, p) == p == Merge(p, UNSET)
    ensures Merge(p, p) == p && Merge(Merge(p, q), q) == Merge(p, q)
  {
  }

  datatype Field = Interval | Timeout | Threshold | TriggerField | Window | MinAvailability | Notify | SkipVerify

  predicate IsSet(p: MonitorParams, f: Field) {
    match f
    case Interval => p.intervalS != 0
    case Timeout => p.timeoutMS != 0
    case Threshold => p.failureThreshold != 0
    case TriggerField => p.trigger != ""
    case Window => p.windowSize != 0
    case MinAvailability => p.minAvailability != 0.0
    case Notify => p.notify != []
    case SkipVerify => p.insecureSkipVerify
  }

  /** The fields that carry a value. */
  function SetFields(p: MonitorParams): set<Field> {
    set f: Field | IsSet(p, f)
  }

  lemma MergeSets(p: MonitorParams, src: MonitorParams, f: Field)
    ensures IsSet(Merge(p, src), f) <==> IsSet(p, f) || IsSet(src, f)
  {
    match f
    case Interval => case Timeout => case Threshold => case TriggerField => case Window =>
    case MinAvailability => case Notify => case SkipVerify =>
  }

  lemma NothingToFill(p: MonitorParams, src: MonitorParams)
    requires forall f: Field :: IsSet(src, f) ==> IsSet(p, f)
    ensures Merge(p, src) == p
  {
    assert IsSet(src, Interval) ==> IsSet(p, Interval);
    assert IsSet(src, Timeout) ==> IsSet(p, Timeout);
    assert IsSet(src, Threshold) ==> IsSet(p, Threshold);
    assert IsSet(src, TriggerField) ==> IsSet(p, TriggerField);
    assert IsSet(src, Window) ==> IsSet(p, Window);
    assert IsSet(src, MinAvailability) ==> IsSet(p, MinAvailability);
    assert IsSet(src, Notify) ==> IsSet(p, Notify);
    assert IsSet(src, SkipVerify) ==> IsSet(p, SkipVerify);
  }

  /** p with every field but one unset. */
  function Only(p: MonitorParams, f: Field): MonitorParams {
    match f
    case Interval => UNSET.(intervalS := p.intervalS)
    case Timeout => UNSET.(timeoutMS := p.timeoutMS)
    case Threshold => UNSET.(failureThreshold := p.failureThreshold)
    case TriggerField => UNSET.(trigger := p.trigger)
    case Window => UNSET.(windowSize := p.windowSize)
    case MinAvailability => UNSET.(minAvailability := p.minAvailability)
    case Notify => UNSET.(notify := p.notify)
    case SkipVerify => UNSET.(insecureSkipVerify := p.insecureSkipVerify)
  }

  /** Each field is inherited on its own, whatever the others hold. */
  lemma FieldsAreIndependent(p: MonitorParams, src: MonitorParams, f: Field)
    ensures Only(Merge(p, src), f) == Merge(Only(p, f), Only(src, f))
  {
    match f
    case Interval => case Timeout => case Threshold => case TriggerField => case Window =>
    case MinAvailability => case Notify => case SkipVerify =>
  }

  /** Inheriting sets what either side sets, and a profile has no effect at all
      exactly when everything it sets was already set inline. */
  lemma ProfileOnlyFills(p: MonitorParams, src: MonitorParams)
    ensures SetFields(Merge(p, src)) == SetFields(p) + SetFields(src)
    ensures Merge(p, src) == p <==> SetFields(src) <= SetFields(p)
  {
    hide Merge, IsSet;
    forall f: Field
      ensures IsSet(Merge(p, src), f) <==> IsSet(p, f) || IsSet(src, f)
    {
      MergeSets(p, src, f);
    }
    if SetFields(src) <= SetFields(p) {
      forall f: Field ensures IsSet(src, f) ==> IsSet(p, f) {
        assert f in SetFields(src) ==> f in SetFields(p);
      }
      NothingToFill(p, src);
    }
  }

  function WithTriggerDefaults(p: MonitorParams): MonitorParams {
    p.(trigger := Or("", p.trigger, TRIGGER_CONSECUTIVE), windowSize := Or(0, p.windowSize, DEFAULT_WINDOW_SIZE))
  }

  function WithDefaults(p: MonitorParams): MonitorParams {
    WithTriggerDefaults(p.(failureThreshold := Or(0, p.failureThreshold, 1)))
  }

  /** Defaults are the last profile: they fill exactly what is still unset. */
  lemma DefaultsAreAMerge(p: MonitorParams)
    ensures WithDefaults(p) == Merge(p, UNSET.(failureThreshold := 1, trigger := TRIGGER_CONSECUTIVE,
                                               windowSize := DEFAULT_WINDOW_SIZE))
  {
  }

  // ----- the parameters of one target, filled in place -----

  class Params {
    var intervalS: int
    var timeoutMS: int
    var failureThreshold: int
    var trigger: string
    var windowSize: int
    var minAvailability: real
    var notify: seq<string>
    var insecureSkipVerify: bool

    constructor (p: MonitorParams)
      ensures Value() == p
    {
      intervalS, timeoutMS, failureThreshold, trigger := p.intervalS, p.timeoutMS, p.failureThreshold, p.trigger;
      windowSize, minAvailability, notify := p.windowSize, p.minAvailability, p.notify;
      insecureSkipVerify := p.insecureSkipVerify;
    }

    function Value(): MonitorParams
      reads this
    {
      MonitorParams(intervalS, timeoutMS, failureThreshold, trigger, windowSize, minAvailability, notify,
                    insecureSkipVerify)
    }

    method InheritFrom(src: MonitorParams)
      modifies this
      ensures Value() == Merge(old(Value()), src)
    {
      InheritNumbers(src);
      if trigger == "" {
        trigger := src.trigger;
      }
      if notify == [] {
        notify := src.notify;
      }
      insecureSkipVerify := insecureSkipVerify || src.insecureSkipVerify;
    }

    /** The numeric fields of InheritFrom. */
    method InheritNumbers(src: MonitorParams)
      modifies `intervalS, `timeoutMS, `failureThreshold, `windowSize, `minAvailability
      ensures intervalS == Or(0, old(intervalS), src.intervalS)
      ensures timeoutMS == Or(0, old(timeoutMS), src.timeoutMS)
      ensures failureThreshold == Or(0, old(failureThreshold), src.failureThreshold)
      ensures windowSize == Or(0, old(windowSize), src.windowSize)
      ensures minAvailability == Or(0.0, old(minAvailability), src.minAvailability)
    {
      if intervalS == 0 {
        intervalS := src.intervalS;
      }
      if timeoutMS == 0 {
        timeoutMS := src.timeoutMS;
      }
      if failureThreshold == 0 {
        failureThreshold := src.failureThreshold;
      }
      if windowSize == 0 {
        windowSize := src.windowSize;
      }
      if minAvailability == 0.0 {
        minAvailability := src.minAvailability;
      }
    }

    method ApplyDefaults()
      modifies this
      ensures Value() == WithDefaults(old(Value()))
    {
      if failureThreshold == 0 {
        failureThreshold := 1;
      }
      if trigger == "" {
        trigger := TRIGGER_CONSECUTIVE;
      }
      if windowSize == 0 {
        windowSize := DEFAULT_WINDOW_SIZE;
      }
    }
  }

  /** A target under resolution: the profile it names and its parameters. */
  datatype ProfileRef = ProfileRef(profile: string, params: Params)

  datatype ResolveError = UndefinedDefaultProfile(name: string) | UndefinedProfile(index: nat, name: string)

  /** The one profile a target inherits from; empty means none. */
  function Chosen(defaultProfile: string, profile: string): string {
    Or("", profile, defaultProfile)
  }

  /** A target's parameters after inheriting. */
  function Resolved(profiles: map<string, MonitorParams>, chosen: string, p: MonitorParams): MonitorParams {
    if chosen in profiles && chosen != "" then Merge(p, profiles[chosen]) else p
  }

  predicate Defined(profiles: map<string, MonitorParams>, chosen: string) {
    chosen == "" || chosen in profiles
  }

  /** Resolves all targets of a role in place. It fails at the first undefined
      profile, having resolved exactly the targets before it. */
  method ResolveProfileRefs(profiles: map<string, MonitorParams>, defaultProfile: string, refs: seq<ProfileRef>)
    returns (err: Option<ResolveError>)
    requires forall i, j :: 0 <= i < j < |refs| ==> refs[i].params != refs[j].params
    modifies set r | r in refs :: r.params
    ensures err.None? <==>
              && Defined(profiles, defaultProfile)
              && forall i :: 0 <= i < |refs| ==> Defined(profiles, Chosen(defaultProfile, refs[i].profile))
    ensures var done := match err
                        case None => |refs|
                        case Some(UndefinedDefaultProfile(_)) => 0
                        case Some(UndefinedProfile(k, _)) => k;
            && done <= |refs|
            && (forall i :: 0 <= i < done ==>
                  refs[i].params.Value() ==
                  Resolved(profiles, Chosen(defaultProfile, refs[i].profile), old(refs[i].params.Value())))
            && (forall i :: done <= i < |refs| ==> refs[i].params.Value() == old(refs[i].params.Value()))
    ensures err.Some? && err.value.UndefinedProfile? ==>
              && err.value.index < |refs|
              && err.value.name == Chosen(defaultProfile, refs[err.value.index].profile)
              && !Defined(profiles, err.value.name)
  {
    if defaultProfile != "" {
      if defaultProfile !in profiles {
        return Some(UndefinedDefaultProfile(defaultProfile));
      }
    }
    for k := 0 to |refs|
      invariant forall i :: 0 <= i < k ==> Defined(profiles, Chosen(defaultProfile, refs[i].profile))
      invariant forall i :: 0 <= i < k ==>
                  refs[i].params.Value() ==
                  Resolved(profiles, Chosen(defaultProfile, refs[i].profile), old(refs[i].params.Value()))
      invariant forall i :: k <= i < |refs| ==> refs[i].params.Value() == old(refs[i].params.Value())
    {
      hide Merge;
      var name := refs[k].profile;
      if name == "" {
        name := defaultProfile;
      }
      if name != "" {
        if name !in profiles {
          return Some(UndefinedProfile(k, name));
        }
        assert refs[k] in refs;
        refs[k].params.InheritFrom(profiles[name]);
      }
    }
    return None;
  }

  // ----- the whole configuration -----

  datatype Target = Target(address: string, profile: string, params: MonitorParams)

  datatype TargetRole = TargetRole(enabled: bool, defaultProfile: string, targets: seq<Target>)

  datatype InternetRole = InternetRole(enabled: bool, sites: seq<string>, params: MonitorParams)

  /** The source's speed check has no timeout and no TLS switch; here they stay unset. */
  datatype SpeedRole = SpeedRole(enabled: bool, thresholdMbps: real, binary: string, params: MonitorParams)

  datatype PongRole = PongRole(enabled: bool, listen: string, readTimeoutMS: int)

  /** `channels` are the names of the channels that are defined. */
  datatype Config = Config(
    maxAttempts: int,
    baseDelayMS: int,
    summaryIntervalS: int,
    profiles: map<string, MonitorParams>,
    channels: set<string>,
    pong: PongRole,
    ping: TargetRole,
    url: TargetRole,
    internet: InternetRole,
    speed: SpeedRole)

  predicate RoleResolves(profiles: map<string, MonitorParams>, r: TargetRole) {
    r.enabled ==>
      && Defined(profiles, r.defaultProfile)
      && forall i :: 0 <= i < |r.targets| ==> Defined(profiles, Chosen(r.defaultProfile, r.targets[i].profile))
  }

  function ResolveRole(profiles: map<string, MonitorParams>, r: TargetRole): TargetRole {
    if !r.enabled then r
    else r.(targets := seq(|r.targets|, i requires 0 <= i < |r.targets| =>
              var t := r.targets[i];
              t.(params := Resolved(profiles, Chosen(r.defaultProfile, t.profile), t.params))))
  }

  function DefaultRole(r: TargetRole): TargetRole {
    r.(targets := seq(|r.targets|, i requires 0 <= i < |r.targets| =>
         r.targets[i].(params := WithDefaults(r.targets[i].params))))
  }

  /** Resolution then defaults; undefined profiles are an error. */
  function Prepare(c: Config): Option<Config> {
    if !RoleResolves(c.profiles, c.ping) || !RoleResolves(c.profiles, c.url) then None
    else Some(c.(
      maxAttempts := Or(0, c.maxAttempts, 3),
      baseDelayMS := Or(0, c.baseDelayMS, 500),
      summaryIntervalS := Or(0, c.summaryIntervalS, DEFAULT_SUMMARY_INTERVAL_S),
      ping := DefaultRole(ResolveRole(c.profiles, c.ping)),
      url := DefaultRole(ResolveRole(c.profiles, c.url)),
      internet := c.internet.(params := WithDefaults(c.internet.params)),
      speed := c.speed.(params := WithDefaults(c.speed.params), binary := Or("", c.speed.binary, "speedtest"))))
  }

  lemma ParamsSettle(profiles: map<string, MonitorParams>, chosen: string, p: MonitorParams)
    ensures var q := WithDefaults(Resolved(profiles, chosen, p));
            WithDefaults(Resolved(profiles, chosen, q)) == q
  {
  }

  lemma RoleSettles(profiles: map<string, MonitorParams>, r: TargetRole)
    requires RoleResolves(profiles, r)
    ensures var s := DefaultRole(ResolveRole(profiles, r));
            RoleResolves(profiles, s) && DefaultRole(ResolveRole(profiles, s)) == s
  {
    hide WithDefaults, Resolved, Defined;
    var s := DefaultRole(ResolveRole(profiles, r));
    var u := DefaultRole(ResolveRole(profiles, s));
    forall i | 0 <= i < |r.targets| ensures u.targets[i] == s.targets[i] {
      ParamsSettle(profiles, Chosen(r.defaultProfile, r.targets[i].profile), r.targets[i].params);
      if !r.enabled {
        DefaultsSettle(r.targets[i].params);
      }
    }
    assert u.targets == s.targets;
  }

  lemma DefaultsSettle(p: MonitorParams)
    ensures WithDefaults(WithDefaults(p)) == WithDefaults(p)
  {
  }

  /** Preparing a prepared configuration changes nothing. */
  lemma PrepareIsIdempotent(c: Config)
    requires Prepare(c).Some?
    ensures Prepare(Prepare(c).value) == Prepare(c)
  {
    hide WithDefaults, DefaultRole, ResolveRole, RoleResolves;
    RoleSettles(c.profiles, c.ping);
    RoleSettles(c.profiles, c.url);
    DefaultsSettle(c.internet.params);
    DefaultsSettle(c.speed.params);
  }

  /** What the documentation describes: a target's own profile first, then the
      role's default profile for whatever is still unset. */
  function Documented(profiles: map<string, MonitorParams>, defaultProfile: string, own: string, p: MonitorParams)
    : MonitorParams
  {
    Resolved(profiles, defaultProfile, Resolved(profiles, own, p))
  }

  /** The code picks one of the two profiles, and so agrees with the
      documentation exactly when only one is named or the default profile sets
      nothing that target and own profile leave unset. */
  lemma FallbackIffNothingLeftToFill(profiles: map<string, MonitorParams>, defaultProfile: string, own: string,
                                     p: MonitorParams)
    requires Defined(profiles, defaultProfile) && Defined(profiles, own)
    ensures Resolved(profiles, Chosen(defaultProfile, own), p) == Documented(profiles, defaultProfile, own, p) <==>
            || own == "" || defaultProfile == ""
            || SetFields(profiles[defaultProfile]) <= SetFields(p) + SetFields(profiles[own])
  {
    hide Merge, SetFields;
    if own != "" && defaultProfile != "" {
      ProfileOnlyFills(p, profiles[own]);
      ProfileOnlyFills(Merge(p, profiles[own]), profiles[defaultProfile]);
    }
  }

  /** A witness: an interval that only the default profile sets stays unset. */
  lemma NoFallbackToDefaultProfile(profiles: map<string, MonitorParams>, own: string, other: string, p: MonitorParams)
    requires own != "" && own in profiles && other in profiles
    requires p.intervalS == 0 && profiles[own].intervalS == 0 && profiles[other].intervalS > 0
    ensures Resolved(profiles, Chosen(other, own), p).intervalS == 0
    ensures Merge(Merge(p, profiles[own]), profiles[other]).intervalS > 0
  {
  }

  // ----- validation -----

  datatype Problem = BadInterval | BadTimeout | BadThreshold | BadWindow | BadMinAvailability | UnknownTrigger
                   | UndefinedChannel(name: string) | MissingAddress | BadAddress | NoTargets

  predicate TriggerOk(trigger: string, windowSize: int, minAvailability: real) {
    if trigger == TRIGGER_AVAILABILITY then windowSize > 0 && 0.0 < minAvailability <= 100.0
    else (trigger == "" || trigger == TRIGGER_CONSECUTIVE) && windowSize >= 0
  }

  predicate ParamsOk(channels: set<string>, p: MonitorParams) {
    && p.intervalS > 0
    && p.failureThreshold >= 1
    && TriggerOk(p.trigger, p.windowSize, p.minAvailability)
    && forall name :: name in p.notify ==> name in channels
  }

  function ValidateTrigger(trigger: string, windowSize: int, minAvailability: real): (problem: Option<Problem>)
    ensures problem.None? <==> TriggerOk(trigger, windowSize, minAvailability)
  {
    if trigger == "" || trigger == TRIGGER_CONSECUTIVE then
      if windowSize < 0 then Some(BadWindow) else None
    else if trigger == TRIGGER_AVAILABILITY then
      if windowSize <= 0 then Some(BadWindow)
      else if minAvailability <= 0.0 || minAvailability > 100.0 then Some(BadMinAvailability)
      else None
    else Some(UnknownTrigger)
  }

  /** Reports the first listed channel that is not defined, if any. */
  method CheckNotify(channels: set<string>, notify: seq<string>) returns (problem: Option<Problem>)
    ensures problem.None? <==> forall name :: name in notify ==> name in channels
    ensures problem.Some? ==> exists i :: 0 <= i < |notify| && problem == Some(UndefinedChannel(notify[i]))
                                          && notify[i] !in channels
                                          && forall k :: 0 <= k < i ==> notify[k] in channels
  {
    for i := 0 to |notify|
      invariant forall k :: 0 <= k < i ==> notify[k] in channels
    {
      if notify[i] !in channels {
        return Some(UndefinedChannel(notify[i]));
      }
    }
    return None;
  }

  predicate TargetOk(channels: set<string>, addressOk: string -> bool, t: Target) {
    t.address != "" && addressOk(t.address) && t.params.timeoutMS > 0 && ParamsOk(channels, t.params)
  }

  /** The loop over one role's targets. `addressOk` is the URL check of
      url_monitor; ping_monitor accepts any address. */
  method ValidateTargets(channels: set<string>, addressOk: string -> bool, targets: seq<Target>)
    returns (index: nat, problem: Option<Problem>)
    ensures problem.None? <==> targets != [] && forall i :: 0 <= i < |targets| ==> TargetOk(channels, addressOk, targets[i])
    ensures problem.Some? && targets != [] ==>
              && index < |targets| && !TargetOk(channels, addressOk, targets[index])
              && forall i :: 0 <= i < index ==> TargetOk(channels, addressOk, targets[i])
  {
    if |targets| == 0 {
      return 0, Some(NoTargets);
    }
    for i := 0 to |targets|
      invariant forall k :: 0 <= k < i ==> TargetOk(channels, addressOk, targets[k])
    {
      var t := targets[i];
      if t.address == "" {
        return i, Some(MissingAddress);
      }
      if !addressOk(t.address) {
        return i, Some(BadAddress);
      }
      if t.params.intervalS <= 0 {
        return i, Some(BadInterval);
      }
      if t.params.timeoutMS <= 0 {
        return i, Some(BadTimeout);
      }
      if t.params.failureThreshold < 1 {
        return i, Some(BadThreshold);
      }
      problem := ValidateTrigger(t.params.trigger, t.params.windowSize, t.params.minAvailability);
      if problem.Some? {
        return i, problem;
      }
      problem := CheckNotify(channels, t.params.notify);
      if problem.Some? {
        return i, problem;
      }
    }
    return |targets|, None;
  }

  predicate RoleOk(channels: set<string>, addressOk: string -> bool, r: TargetRole) {
    r.enabled ==> r.targets != [] && forall i :: 0 <= i < |r.targets| ==> TargetOk(channels, addressOk, r.targets[i])
  }

  /** What validation demands of a prepared configuration. */
  predicate Valid(c: Config, urlOk: string -> bool) {
    && c.maxAttempts >= 1 && c.baseDelayMS >= 0 && c.summaryIntervalS > 0
    && (c.pong.enabled ==> c.pong.listen != "" && c.pong.readTimeoutMS > 0)
    && RoleOk(c.channels, _ => true, c.ping)
    && RoleOk(c.channels, urlOk, c.url)
    && (c.internet.enabled ==>
          c.internet.sites != [] && c.internet.params.timeoutMS > 0 && ParamsOk(c.channels, c.internet.params))
    && (c.speed.enabled ==> c.speed.thresholdMbps > 0.0 && ParamsOk(c.channels, c.speed.params))
  }

  /** The configuration the daemon runs with, if loading succeeds. */
  function Load(c: Config, urlOk: string -> bool): Option<Config> {
    match Prepare(c)
    case None => None
    case Some(d) => if Valid(d, urlOk) then Some(d) else None
  }

  // ----- what loading accepts -----

  /** Parameters that will do once defaulted: the interval must be set, threshold
      and window may be unset but not negative. */
  predicate AcceptableParams(channels: set<string>, p: MonitorParams) {
    && p.intervalS > 0 && p.failureThreshold >= 0 && p.windowSize >= 0
    && (p.trigger == "" || p.trigger == "consecutive"
        || (p.trigger == "availability" && 0.0 < p.minAvailability <= 100.0))
    && forall name :: name in p.notify ==> name in channels
  }

  predicate AcceptableTarget(channels: set<string>, profiles: map<string, MonitorParams>, defaultProfile: string,
                             addressOk: string -> bool, t: Target)
  {
    var name := if t.profile != "" then t.profile else defaultProfile;
    && t.address != "" && addressOk(t.address)
    && (name != "" ==> name in profiles)
    && var p := if name == "" then t.params else Merge(t.params, profiles[name]);
       p.timeoutMS > 0 && AcceptableParams(channels, p)
  }

  predicate AcceptableRole(channels: set<string>, profiles: map<string, MonitorParams>, addressOk: string -> bool,
                           r: TargetRole)
  {
    r.enabled ==>
      && r.targets != []
      && (r.defaultProfile != "" ==> r.defaultProfile in profiles)
      && forall t :: t in r.targets ==> AcceptableTarget(channels, profiles, r.defaultProfile, addressOk, t)
  }

  lemma DefaultedIsOkIff(channels: set<string>, p: MonitorParams)
    ensures ParamsOk(channels, WithDefaults(p)) <==> AcceptableParams(channels, p)
    ensures WithDefaults(p).timeoutMS == p.timeoutMS
  {
    assert WithDefaults(p).notify == p.notify;
  }

  lemma RoleIsOkIff(channels: set<string>, profiles: map<string, MonitorParams>, addressOk: string -> bool,
                    r: TargetRole)
    ensures RoleResolves(profiles, r) && RoleOk(channels, addressOk, DefaultRole(ResolveRole(profiles, r)))
            <==> AcceptableRole(channels, profiles, addressOk, r)
  {
    hide Merge, WithDefaults, ParamsOk, AcceptableParams;
    var s := DefaultRole(ResolveRole(profiles, r));
    forall i | 0 <= i < |r.targets| && r.enabled
      ensures Defined(profiles, Chosen(r.defaultProfile, r.targets[i].profile))
              && TargetOk(channels, addressOk, s.targets[i])
              <==> AcceptableTarget(channels, profiles, r.defaultProfile, addressOk, r.targets[i])
    {
      var t := r.targets[i];
      DefaultedIsOkIff(channels, Resolved(profiles, Chosen(r.defaultProfile, t.profile), t.params));
    }
    assert forall i :: 0 <= i < |r.targets| ==> r.targets[i] in r.targets;
  }

  /** Which configurations load, read off the file before profiles and defaults. */
  lemma LoadsIff(c: Config, urlOk: string -> bool)
    ensures Load(c, urlOk).Some? <==>
            && c.maxAttempts >= 0 && c.baseDelayMS >= 0 && c.summaryIntervalS >= 0
            && (c.pong.enabled ==> c.pong.listen != "" && c.pong.readTimeoutMS > 0)
            && AcceptableRole(c.channels, c.profiles, _ => true, c.ping)
            && AcceptableRole(c.channels, c.profiles, urlOk, c.url)
            && (c.internet.enabled ==>
                  c.internet.sites != [] && c.internet.params.timeoutMS > 0
                  && AcceptableParams(c.channels, c.internet.params))
            && (c.speed.enabled ==> c.speed.thresholdMbps > 0.0 && AcceptableParams(c.channels, c.speed.params))
  {
    hide WithDefaults, ParamsOk, AcceptableParams, AcceptableRole, RoleOk, RoleResolves, DefaultRole, ResolveRole;
    RoleIsOkIff(c.channels, c.profiles, _ => true, c.ping);
    RoleIsOkIff(c.channels, c.profiles, urlOk, c.url);
    DefaultedIsOkIff(c.channels, c.internet.params);
    DefaultedIsOkIff(c.channels, c.speed.params);
  }

  // ----- what an accepted configuration guarantees -----

  /** An inline value first, then the profile's, then the default. */
  function FirstSet<T(==)>(unset: T, own: T, profile: T, fallback: T): T {
    if own != unset then own else if profile != unset then profile else fallback
  }

  /** Every field of q comes from p, else from the profile, else from the
      documented defaults, each field for itself. */
  predicate FilledFrom(p: MonitorParams, profile: MonitorParams, q: MonitorParams) {
    && q.intervalS == FirstSet(0, p.intervalS, profile.intervalS, 0)
    && q.timeoutMS == FirstSet(0, p.timeoutMS, profile.timeoutMS, 0)
    && q.failureThreshold == FirstSet(0, p.failureThreshold, profile.failureThreshold, 1)
    && q.trigger == FirstSet("", p.trigger, profile.trigger, "consecutive")
    && q.windowSize == FirstSet(0, p.windowSize, profile.windowSize, 20)
    && q.minAvailability == FirstSet(0.0, p.minAvailability, profile.minAvailability, 0.0)
    && q.notify == FirstSet([], p.notify, profile.notify, [])
    && q.insecureSkipVerify == FirstSet(false, p.insecureSkipVerify, profile.insecureSkipVerify, false)
  }

  lemma DefaultedMergeIsFilled(p: MonitorParams, profile: MonitorParams)
    ensures FilledFrom(p, profile, WithDefaults(Merge(p, profile)))
  {
  }

  /** The targets of s are those of r, each filled from the one profile it names
      itself or else its role names; a disabled role looks no profile up. */
  predicate TargetsFilled(profiles: map<string, MonitorParams>, r: TargetRole, s: TargetRole) {
    && s.enabled == r.enabled && |s.targets| == |r.targets|
    && forall i :: 0 <= i < |r.targets| ==>
         var t := r.targets[i];
         var name := if t.profile != "" then t.profile else r.defaultProfile;
         && s.targets[i].address == t.address
         && if !r.enabled || name == "" then FilledFrom(t.params, UNSET, s.targets[i].params)
            else name in profiles && FilledFrom(t.params, profiles[name], s.targets[i].params)
  }

  lemma RoleIsFilled(profiles: map<string, MonitorParams>, r: TargetRole)
    requires RoleResolves(profiles, r)
    ensures TargetsFilled(profiles, r, DefaultRole(ResolveRole(profiles, r)))
  {
    hide Merge, WithDefaults, FilledFrom;
    forall p, src ensures FilledFrom(p, src, WithDefaults(Merge(p, src))) {
      DefaultedMergeIsFilled(p, src);
    }
    forall i | 0 <= i < |r.targets| ensures Merge(r.targets[i].params, UNSET) == r.targets[i].params {
      MergeAlgebra(r.targets[i].params, UNSET, UNSET);
    }
  }

  /** What a configuration that loads runs with: inline values first, then the
      chosen profile, then the documented defaults; nothing else changes. */
  lemma LoadedConfig(c: Config, urlOk: string -> bool)
    requires Load(c, urlOk).Some?
    ensures var d := Load(c, urlOk).value;
            && TargetsFilled(c.profiles, c.ping, d.ping) && TargetsFilled(c.profiles, c.url, d.url)
            && FilledFrom(c.internet.params, UNSET, d.internet.params)
            && FilledFrom(c.speed.params, UNSET, d.speed.params)
            && d.maxAttempts == (if c.maxAttempts == 0 then 3 else c.maxAttempts) && d.maxAttempts >= 1
            && d.baseDelayMS == (if c.baseDelayMS == 0 then 500 else c.baseDelayMS) && d.baseDelayMS >= 0
            && d.summaryIntervalS == (if c.summaryIntervalS == 0 then 900 else c.summaryIntervalS) && d.summaryIntervalS > 0
            && d.speed.binary == (if c.speed.binary == "" then "speedtest" else c.speed.binary)
            && d.speed.thresholdMbps == c.speed.thresholdMbps && d.speed.enabled == c.speed.enabled
            && d.internet.sites == c.internet.sites && d.internet.enabled == c.internet.enabled
            && d.pong == c.pong && d.channels == c.channels && d.profiles == c.profiles
  {
    hide Merge, WithDefaults, FilledFrom, TargetsFilled, RoleOk, ParamsOk, DefaultRole, ResolveRole, RoleResolves;
    RoleIsFilled(c.profiles, c.ping);
    RoleIsFilled(c.profiles, c.url);
    MergeAlgebra(c.internet.params, UNSET, UNSET);
    MergeAlgebra(c.speed.params, UNSET, UNSET);
    DefaultedMergeIsFilled(c.internet.params, UNSET);
    DefaultedMergeIsFilled(c.speed.params, UNSET);
  }

  /** The parameters of every enabled unit that observes something. */
  function Units(c: Config): seq<MonitorParams> {
    (if c.ping.enabled then seq(|c.ping.targets|, i requires 0 <= i < |c.ping.targets| => c.ping.targets[i].params) else [])
    + (if c.url.enabled then seq(|c.url.targets|, i requires 0 <= i < |c.url.targets| => c.url.targets[i].params) else [])
    + (if c.internet.enabled then [c.internet.params] else [])
    + (if c.speed.enabled then [c.speed.params] else [])
  }

  function MonitorConfig(p: MonitorParams): AlertMachine.Config {
    AlertMachine.Config(p.failureThreshold, p.windowSize,
                        if p.trigger == TRIGGER_AVAILABILITY then AlertMachine.TriggerAvailability
                        else AlertMachine.TriggerConsecutive,
                        p.minAvailability)
  }

  /** A unit the machines can run without any of their own safety nets. */
  predicate Sane(channels: set<string>, p: MonitorParams) {
    && p.intervalS > 0
    && p.failureThreshold >= 1
    && p.windowSize >= 1
    && (p.trigger == TRIGGER_CONSECUTIVE || (p.trigger == TRIGGER_AVAILABILITY && 0.0 < p.minAvailability <= 100.0))
    && forall name :: name in p.notify ==> name in channels
  }

  lemma DefaultedIsSane(channels: set<string>, p: MonitorParams)
    requires ParamsOk(channels, WithDefaults(p))
    ensures Sane(channels, WithDefaults(p))
  {
  }

  /** Every enabled unit of an accepted configuration is sane. */
  lemma AcceptedUnitsAreSane(c: Config, urlOk: string -> bool, k: nat)
    requires Load(c, urlOk).Some? && k < |Units(Load(c, urlOk).value)|
    ensures var d := Load(c, urlOk).value; Sane(d.channels, Units(d)[k])
  {
    hide WithDefaults, ParamsOk, Sane, Resolved;
    var d := Load(c, urlOk).value;
    forall p | ParamsOk(d.channels, WithDefaults(p)) ensures Sane(d.channels, WithDefaults(p)) {
      DefaultedIsSane(d.channels, p);
    }
    var nPing := if d.ping.enabled then |d.ping.targets| else 0;
    var nUrl := if d.url.enabled then |d.url.targets| else 0;
    if k < nPing {
      assert TargetOk(d.channels, _ => true, d.ping.targets[k]);
    } else if k < nPing + nUrl {
      assert TargetOk(d.channels, urlOk, d.url.targets[k - nPing]);
    }
  }

  /** Nothing bounds the retry delay from above: any positive base delay is
      accepted in an otherwise accepted configuration, and the dispatcher's
      delays are the configured ones only up to 8589 ms. */
  lemma BaseDelayIsUnbounded(c: Config, urlOk: string -> bool, ms: int)
    requires Load(c, urlOk).Some? && 0 < ms
    ensures var d := Load(c.(baseDelayMS := ms), urlOk);
            && d.Some? && d.value.baseDelayMS == ms
            && (ms <= 8589 <==>
                  forall a: nat :: a >= 1 ==> Backoff.Delay(Backoff.BaseDelayNs(ms), a) ==
                                              ms * Backoff.NS_PER_MS * Backoff.Pow2(Backoff.Shift(a)))
  {
    hide RoleResolves, RoleOk, ParamsOk, WithDefaults, DefaultRole, ResolveRole, Backoff.Delay, Backoff.Pow2,
         Backoff.Shift, Backoff.BaseDelayNs;
    Backoff.SafeBaseDelayMs(ms);
  }

  /** What a unit's own parameters say of a log: in availability mode that a
      full window is below the minimum, else that the newest checks failed. */
  predicate UnhealthyByParams(p: MonitorParams, pct: Percent, log: seq<bool>) {
    if p.trigger == "availability" then
      && 0 < p.windowSize <= |log|
      && pct(CountTrue(LastN(log, p.windowSize)), p.windowSize) < p.minAvailability
    else
      TrailingFailures(log) >= p.failureThreshold
  }

  /** The machine of every accepted unit is unhealthy exactly when the unit's own
      parameters say so. */
  lemma AcceptedUnitStates(c: Config, urlOk: string -> bool, k: nat, pct: Percent, log: seq<bool>)
    requires Load(c, urlOk).Some? && k < |Units(Load(c, urlOk).value)|
    ensures var p := Units(Load(c, urlOk).value)[k];
            AlertMachine.After(MonitorConfig(p), pct, log).state == AlertMachine.Unhealthy
            <==> UnhealthyByParams(p, pct, log)
  {
    hide Load, Units, AlertMachine.After, LastN, CountTrue, TrailingFailures;
    AcceptedUnitsAreSane(c, urlOk, k);
    AlertTheorems.StateClosedForm(MonitorConfig(Units(Load(c, urlOk).value)[k]), pct, log);
  }

  /** So the machine's clamp never acts, it always has a window, and each mode
      reacts in bounded time: an outage (a run of successes) as long as the
      window alerts a healthy (recovers an unhealthy) unit exactly once in
      availability mode, and in consecutive mode an outage of threshold length
      alerts and a single success recovers. */
  lemma AcceptedUnitsReact(c: Config, urlOk: string -> bool, k: nat, pct: Percent, log: seq<bool>)
    requires Load(c, urlOk).Some? && k < |Units(Load(c, urlOk).value)|
    ensures var p := Units(Load(c, urlOk).value)[k];
            var cfg := MonitorConfig(p);
            var state := AlertMachine.After(cfg, pct, log).state;
            && cfg.Threshold() == p.failureThreshold
            && cfg.HasWindow()
            && (p.trigger == "availability" && state == AlertMachine.Healthy ==>
                  AlertTheorems.Reaction(cfg, pct, log, AlertTheorems.Repeat(false, p.windowSize)) == (1, 0))
            && (p.trigger == "availability" && state == AlertMachine.Unhealthy ==>
                  AlertTheorems.Reaction(cfg, pct, log, AlertTheorems.Repeat(true, p.windowSize)) == (0, 1))
            && (p.trigger == "consecutive" && state == AlertMachine.Healthy ==>
                  AlertTheorems.Reaction(cfg, pct, log, AlertTheorems.Repeat(false, p.failureThreshold)) == (1, 0))
            && (p.trigger == "consecutive" && state == AlertMachine.Unhealthy ==>
                  AlertTheorems.Reaction(cfg, pct, log, AlertTheorems.Repeat(true, 1)) == (0, 1))
  {
    hide Load, Units, AlertMachine.After, AlertTheorems.Reaction;
    AcceptedUnitsAreSane(c, urlOk, k);
    var p := Units(Load(c, urlOk).value)[k];
    var cfg := MonitorConfig(p);
    if cfg.trigger == AlertMachine.TriggerAvailability {
      AlertTheorems.BoundedReactionAvailability(cfg, pct, log);
    } else {
      AlertTheorems.BoundedReactionConsecutive(cfg, pct, log, p.failureThreshold);
      AlertTheorems.SuccessesRecoverOnce(cfg, pct, log, 1);
    }
  }
}
