# healthd: a verified model

healthd watches hosts, URLs, sites and download speed from one process. Every
check feeds an alert machine; a registry publishes each unit's status and keeps
a bounded history; a dispatcher fans alerts out to channels with retries; a
configuration layer feeds all of it. This project models those parts in Dafny
and proves what they do on every run and every interleaving.

`dafny verify dfyconfig.toml` checks everything.

## How the model is built

Parts that the program updates in place are classes (`Window`, `Ring`,
`StateMachine`, `Registry`, `Handle`, `InternetCheck`, `SpeedCheck`, `Params`),
each with a ghost log or value that its fields are proved to track. What is
proved about runs is stated over those logs. Concurrent parts (drivers on the
registry, deliveries of one alert, roles under the daemon's main loop) are small
step programs whose schedules are arbitrary sequences of moves.

| file | content |
|---|---|
| Logs.dfy, Circular.dfy | suffixes, counts and failure runs of a log; the layout both circular buffers share |
| Window.dfy, History.dfy | the rolling window and the history rings, in place |
| StateMachine.dfy, AlertTheorems.dfy | the alert machine as automaton and as class; its closed forms, alternation and reaction bounds |
| RoundRobin.dfy | round-robin probing of sites with fixed status, fed into the machine without end |
| Alerts.dfy, Roles.dfy | alerts built from events; whole checks as methods |
| Registry.dfy, Drivers.dfy | the registry in place and as a value; drivers interleaving on it |
| Backoff.dfy, Delivery.dfy, FanOut.dfy | 64-bit retry delays, the retry loop, concurrent deliveries |
| FailFast.dfy | roles, signals and the first fatal error |
| Settings.dfy | profile merge, defaults, validation, exactly what is accepted and what that guarantees |
| Wiring.dfy | the drivers a configuration starts, when their units collide, and what summaries of an accepted configuration show |

Modelling choices:

- Availability is computed by any function of (successes, length) that is 0 at
  none, 100 at all and never falls as successes grow (`RollingWindow.Percent`).
  Exact division has these laws (`ExactPercentLawful`), and so has the float64
  expression of the source, whose division and multiplication round
  monotonically. The theorems hold for both, although the two differ at some
  thresholds; only `UnevenWindowsFlap` also asks that different success counts
  give different percentages.
- Probes, measurements, channel outcomes, cancellation, signals and clock
  readings are inputs, arbitrary unless a theorem says otherwise.
- One registry call is one atomic step, because the source holds one mutex for it.

## Where the code and its documentation or comments differ

The model follows the code.

- The repository's README.md documents the retry delay as base * 2^(attempt-1).
  The code stops doubling at attempt 31, and the product can overflow before
  (`DocumentedFormula` says exactly when code and documentation agree).
- The comment on the clamp says it keeps delays from turning negative or zero. It
  does exactly below a base delay of 2^33 ns (`DelaysStayPositive`; witnesses in
  `ClampedShiftCanOverflow`). Validation accepts any base delay; from 8590 ms on
  some delay is not the configured one (`BaseDelayIsUnbounded`).
- The repository's README.md can be read as falling back field by field from a
  target's profile to the role's default profile. The code picks one of the two;
  `FallbackIffNothingLeftToFill` says exactly when that makes no difference and
  `NoFallbackToDefaultProfile` is a witness.
- A registered unit that was never updated shows no window and availability 0,
  while a fresh machine would publish 100; so a status matches the machine
  exactly from its first update on (`StatusMatchesFromFirstUpdate`,
  `SlotIsFreshButForWindow`).
- Two targets of a role with the same address share one registry slot, and
  validation does not forbid it (`DuplicateTargetsAreAccepted`). A unit's entry is
  its driver's in every interleaving exactly if no other driver has its unit name
  (`EntryIsOwnIffUnitIs`), for a configuration exactly if no role lists an address
  twice (`EntriesAreOwnIffDistinctAddresses`).

## Model

| member | source | states |
|---|---|---|
| Circular.HeldTracksLog | internal/monitor/history.go:35-41 | writing at the head of a circular buffer that holds the newest entries of a log leaves it holding the newest entries of the longer log |
| Circular.HeldPosition | internal/monitor/history.go:44-51 | the modular index the slice loop reads is the i-th oldest entry |
| RollingWindow.ExactPercentLawful | internal/monitor/window.go:53 | exact division obeys the laws every theorem assumes of availability |
| RoundRobin.ExactPercentIsStrict | internal/monitor/window.go:53 | exact division also tells any two success counts of a full window apart, which the flapping theorem asks for |
| RollingWindow.Window.constructor | internal/monitor/window.go:20-22 | a new window is valid and has seen nothing |
| RollingWindow.Window.Add | internal/monitor/window.go:25-39 | after any adds the buffer read oldest first is the newest `size` outcomes and `sum` counts its successes |
| RollingWindow.Window.ReportAvailability | internal/monitor/window.go:49-54 | the incremental counters give the availability of the newest `size` outcomes, 100 when empty |
| History.Ring.Add | internal/monitor/history.go:35-41 | the ring holds the newest `capacity` samples ever added |
| History.Ring.Slice | internal/monitor/history.go:44-51 | returns exactly those samples, oldest first |
| AlertMachine.StateMachine.constructor | internal/monitor/statemachine.go:95-111 | a new machine is valid for the clamped threshold and optional window |
| AlertMachine.StateMachine.Count | internal/monitor/statemachine.go:117-126 | counter, last success and window advance the same way in both modes |
| AlertMachine.StateMachine.DoTransitionConsecutive | internal/monitor/statemachine.go:135-148 | the in-place transition is the automaton's consecutive transition and changes only the state |
| AlertMachine.StateMachine.DoTransitionAvailability | internal/monitor/statemachine.go:153-167 | the in-place transition over the circular buffer is the automaton's availability transition |
| AlertMachine.StateMachine.Observe | internal/monitor/statemachine.go:117-132 | every field tracks the automaton run over all checks ever observed, and the event is the automaton's |
| AlertMachine.StepChanges | internal/monitor/statemachine.go:117-167 | a step emits exactly the change of state it makes |
| AlertMachine.StepMeaning | internal/monitor/statemachine.go:117-167 | where a step goes depends only on the counter and window it recorded, except while the window fills |
| AlertTheorems.StateClosedForm | internal/monitor/statemachine.go:117-167 | Unhealthy iff the trailing failure run reaches the clamped threshold (consecutive), iff the newest full window is below the minimum (availability), whatever came before |
| AlertTheorems.EventIsStateChange | internal/monitor/statemachine.go:135-167 | an event is emitted exactly when the state changes and names the state entered |
| AlertTheorems.NotificationsAlternate | internal/monitor/statemachine.go:8-20 | on every run alerts and recoveries alternate starting with an alert, alerts lead by one exactly while unhealthy, and the notifications alone give back the state |
| AlertTheorems.OneAlertPerOutage | internal/monitor/statemachine.go:135-148 | total alerts equal the number of maximal failure runs of at least threshold length |
| AlertTheorems.CauseOfEvent | internal/monitor/statemachine.go:150-167 | no event in warm-up; later an alert needs a failure that evicts a success and a recovery a success that evicts a failure |
| AlertTheorems.FillingCheck | internal/monitor/statemachine.go:150-167 | after any warm-up and for either outcome, the check that fills the window alerts iff the whole window is below the minimum |
| AlertTheorems.UniformRunEvents | internal/monitor/statemachine.go:117-167 | a run of equal outcomes changes the state at most once and never in the wrong direction |
| AlertTheorems.BoundedReactionAvailability | internal/monitor/statemachine.go:153-167 | from any reachable state, window_size failures alert once iff min > 0 and window_size successes recover once iff min <= 100, with no flapping |
| AlertTheorems.BoundedReactionConsecutive | internal/monitor/statemachine.go:135-148 | from any reachable state, k failures alert once exactly if they complete a run of threshold length |
| AlertTheorems.SuccessesRecoverOnce | internal/monitor/statemachine.go:135-142 | from any reachable state a run of successes, however short, recovers an unhealthy unit with exactly one notification and signals nothing for a healthy one |
| AlertTheorems.ExactReactionTime | internal/monitor/statemachine.go:153-167 | from a window of equal outcomes, in both directions, the unit is unhealthy after k checks of the other kind iff the successes then in the window are below the minimum |
| RoundRobin.SteadyWindows | internal/roles/internet_check.go:68-72 | all full windows hold equally many successes iff site statuses recur with the window's length |
| RoundRobin.SteadySitesSignalOnce | internal/roles/internet_check.go:68-90 | then the only event of an unbounded run is an alert at the check that fills the window, iff that window is below the minimum |
| RoundRobin.SteadyForAllSitesIffWholeRounds | internal/roles/internet_check.go:68-72 | windows are steady for every status of n sites iff the window size is a multiple of n |
| RoundRobin.WholeRoundsSignalOnce | internal/roles/internet_check.go:68-90 | for a window of q whole rounds every full window holds q times the up sites, so at most one event ever fires |
| RoundRobin.UnevenWindowsFlap | internal/roles/internet_check.go:68-90 | if statuses do not recur with the window, some minimum in (0, 100] makes the unit signal again after every whole number of rounds, for ever |
| RoundRobin.DownRunAlerts | internal/roles/internet_check.go:68-90 | threshold many down checks in a row alert by the last of them |
| RoundRobin.AlertEndsDownRun | internal/roles/internet_check.go:68-90 | an alert is always the last of threshold many down checks in a row |
| RoundRobin.AlertIffDownRun | internal/roles/internet_check.go:68-90 | an alert ever fires iff some cyclic run of down sites reaches the threshold, and then within n - 1 + threshold checks |
| Alerts.RecoveryMeansSuccess | internal/monitor/statemachine.go:135-167 | in both modes a recovery only comes with a passing check |
| Alerts.AlertsAreTruthful | internal/roles/roles.go:18-45 | on every run an alert is dispatched iff the newest check changes whether the log is failing; it says UNHEALTHY iff the log now is, and counts the failures the log ends with, although recoveries hard-code 0 |
| Alerts.AlertLogPush | internal/roles/roles.go:26-45 | each check adds exactly the alert dispatched for it to the alerts owed |
| FleetRegistry.HistoryAvailability | internal/monitor/registry.go:190-201 | the loop gives the availability of the retained checks, 100 when there are none |
| FleetRegistry.SpeedStatsOf | internal/monitor/registry.go:204-226 | count, latest, attained minimum and maximum that bound all samples, and the mean; nothing without samples |
| FleetRegistry.SumIsAdditive | internal/monitor/registry.go:211-219 | the summed speed is additive over any split of the samples and is the speed itself for one |
| FleetRegistry.AverageIsBetween | internal/monitor/registry.go:204-226 | average and latest speed lie between the reported extremes |
| FleetRegistry.RunWellFormed | internal/monitor/registry.go:43-92 | after any calls the order has no duplicates and lists exactly the units, which all have histories |
| FleetRegistry.OrderOnlyGrows | internal/monitor/registry.go:49-53 | registration order only ever grows at its end |
| FleetRegistry.NonInterference | internal/monitor/registry.go:43-92 | for every interleaving a unit's entry is what its own calls alone produce |
| FleetRegistry.EntryClosedForm | internal/monitor/registry.go:43-92 | a unit's entry is its newest status and all samples since its registration; calls for unknown units are dropped |
| FleetRegistry.Registry.constructor | internal/monitor/registry.go:32-37 | a new registry is valid and empty |
| FleetRegistry.Registry.Register | internal/monitor/registry.go:43-55 | adds an unknown unit at the end of the order, healthy with no failures, no window, no success seen and empty histories, and leaves a known one alone |
| FleetRegistry.Registry.Set | internal/monitor/registry.go:86-92 | replaces a known unit's status and nothing else |
| FleetRegistry.Registry.RecordCheck | internal/monitor/registry.go:68-74 | appends to that unit's check ring only, with all rings still apart |
| FleetRegistry.Registry.RecordSpeed | internal/monitor/registry.go:77-83 | appends to that unit's speed ring only, with all rings still apart |
| FleetRegistry.Registry.Snapshot | internal/monitor/registry.go:95-106 | every unit's status under its own name, in registration order |
| FleetRegistry.Registry.UnitReport | internal/monitor/registry.go:174-183 | one unit's status, newest 100 samples of each kind and their aggregates |
| FleetRegistry.Registry.Summary | internal/monitor/registry.go:167-186 | such a report for every unit, in registration order |
| Drivers.StatusMatchesFromFirstUpdate | internal/monitor/registry.go:49-53 | a unit on show agrees with its machine iff at least one check was published |
| Drivers.SlotIsFreshButForWindow | internal/monitor/registry.go:49-53 | a new slot and a fresh machine agree on Healthy and no failures and differ in window and availability only |
| Drivers.StatusTellsTheLog | internal/monitor/registry.go:274-286 | every field of a published status, read off the checks alone |
| Drivers.ExecConsistent | internal/roles/speed_check.go:118-131 | in every interleaving of any drivers every driver's fields and sent alerts match the checks it made, and the entry of a unit with one driver matches that driver up to the call it makes next |
| Drivers.BoundedLag | internal/roles/speed_check.go:118-127 | any summary shows status of k, history of c and speeds of m checks with m <= c <= k and at most one check of lag |
| Drivers.SummaryListsTheUnits | internal/monitor/registry.go:167-186 | every summary ever taken lists each started unit once, in the order of first registration |
| Drivers.WindowAgreesWithHistory | internal/monitor/registry.go:190-201 | once a check is recorded, rolling and history availability agree whenever they cover equally many checks |
| Drivers.EveryChangeNotified | internal/roles/speed_check.go:118-131 | for every launch, shared units or not, every change of state is dispatched exactly once, in order, with the state and counter of that moment |
| Drivers.DriversDoNotInterfere | internal/roles/speed_check.go:70-132 | whatever the other drivers do, a driver with its own unit and that unit's entry evolve as if it ran alone |
| Drivers.ForeignCheck | internal/monitor/registry.go:49-54 | with a second driver on its unit, a driver that has done nothing has an entry that holds a check |
| Drivers.EntryIsOwnIffUnitIs | internal/monitor/registry.go:43-92 | for every launch and driver, its entry reflects it, and others go unnoticed, in all interleavings iff no other driver has its unit name |
| Roles.Handle.Update | internal/monitor/registry.go:274-286 | publishes exactly the view of the machine after all its checks |
| Roles.FinishCheck | internal/roles/ping_monitor.go:108-114 | one check steps the machine, publishes its status, records the check and any throughput, and builds the truthful alert |
| Roles.UninterruptedStepsAreOneCheck | internal/roles/speed_check.go:118-131 | a concurrent driver's steps run without interruption do exactly what that method does |
| Roles.OneCheckRecorded | internal/roles/speed_check.go:118-127 | one check shows its status and appends one sample of each kind taken, at one time, to its own unit and touches no other |
| Roles.InternetCheck.constructor | internal/roles/internet_check.go:32-50 | registers the unit and starts at the first site |
| Roles.InternetCheck.NextSite | internal/roles/internet_check.go:68-72 | returns site number next mod n and moves on |
| Roles.InternetCheck.RunCheck | internal/roles/internet_check.go:74-90 | one tick probes the next site and reports its outcome to machine, registry and notifier |
| Roles.InternetCheck.Run | internal/roles/internet_check.go:53-65 | over any number of ticks with fixed sites the machine observes the round-robin schedule and exactly its changes are alerted |
| Roles.SpeedCheck.constructor | internal/roles/speed_check.go:41-61 | registers the unit with a fresh machine |
| Roles.SpeedCheck.RunCheck | internal/roles/speed_check.go:85-132 | success iff measured and at or above the threshold; the throughput is recorded iff it was measured, even below |
| Backoff.EveryDelayFits | internal/notify/dispatcher.go:95-107 | all delays are exact in int64 iff the base delay is below 2^33 ns |
| Backoff.DeliveryDelaysFit | internal/notify/dispatcher.go:99-107 | the delays of one delivery are exact iff its last one is |
| Backoff.DelaysStayPositive | internal/notify/dispatcher.go:95-107 | all delays are positive iff the base delay is below 2^33 ns; every larger one has a negative delay |
| Backoff.ClampedShiftCanOverflow | internal/notify/dispatcher.go:95-107 | witnesses: one base delay whose delay turns negative and one whose delay vanishes |
| Backoff.WrapIsCongruent | internal/notify/dispatcher.go:99-107 | a 64-bit product differs from the exact one by a multiple of 2^64 |
| Backoff.BaseDelayMeaning | cmd/healthd/main.go:53-58 | for every configured value the base delay is the 64-bit representative of the nanoseconds, or 0 if that is negative |
| Backoff.SafeBaseDelayMs | cmd/healthd/main.go:53-58 | for every non-negative configured value, through conversion and clamp, the delays are the configured ones iff it is at most 8589 ms |
| Backoff.DelaysDoubleThenStay | internal/notify/dispatcher.go:99-107 | delays double through attempt 31, then stay, and are never negative |
| Backoff.DocumentedFormula | internal/notify/dispatcher.go:99-107 | for every base delay the documented base * 2^(attempt-1) holds iff the base is 0, or attempt <= 31 and the product fits int64 |
| Backoff.TotalDelayClosedForm | internal/notify/dispatcher.go:63-107 | total wait before attempt m is base * (2^(m-1) - 1), linear beyond attempt 32 |
| Delivery.CallsWithoutCancellation | internal/notify/dispatcher.go:61-93 | uncancelled, a channel gets min(first success, max attempts) calls |
| Delivery.Dispatcher.constructor | internal/notify/dispatcher.go:22-38 | attempts are clamped to at least 1 and the base delay to at least 0 |
| Delivery.Dispatcher.Deliver | internal/notify/dispatcher.go:61-118 | for every outcome stream and cancellation point: exactly the calls allowed, none past a failed check even if the timer wins the select; delivered iff the last call was accepted, so a panic is one more failure; else the last error, and the right waits |
| Delivery.Dispatcher.Start | internal/notify/dispatcher.go:45-56 | starts one delivery per listed name that is a channel, skipping unknown ones |
| Delivery.Dispatcher.Known | internal/notify/dispatcher.go:45-50 | each known name is kept as often as it is listed and unknown names not at all |
| FanOut.AlwaysSound | internal/notify/dispatcher.go:61-93 | in every interleaving a delivery has made and failed all attempts before the current one |
| FanOut.ExactCalls | internal/notify/dispatcher.go:43-118 | every finished delivery made min(first accepted, max) calls unless cancelled, and fewer, none accepted, if cancelled; an exhausted one reports its last error or panic |
| FanOut.Isolation | internal/notify/dispatcher.go:40-58 | a delivery goes the same way whatever its siblings' outcomes and schedule |
| FanOut.NoCallAfterCancellation | internal/notify/dispatcher.go:64-68 | after cancellation at most the call already past its check is made |
| FanOut.CancellationEndsDelivery | internal/notify/dispatcher.go:64-90 | after cancellation three turns end any delivery, whether or not its timer fires |
| FanOut.EveryDeliveryFinishes | internal/notify/dispatcher.go:40-58 | no sibling can hold a delivery up: 3 * max turns of its own finish it |
| FailFast.RunReturns | cmd/healthd/main.go:76-110 | run returns only once all roles stopped, with an error iff some role failed other than by cancellation, and it is the first recorded one; otherwise a signal was sent |
| FailFast.FirstErrorSticks | cmd/healthd/main.go:90-94 | the recorded error is never overwritten and the result never changes |
| FailFast.CleanStopsKeepServing | cmd/healthd/main.go:98-103 | clean exits alone never end the daemon |
| FailFast.FailureBringsDown | cmd/healthd/main.go:86-103 | after a fatal exit, every continuation in which the role records, cancels and main then gets a turn takes the daemon out of service without a signal |
| FailFast.OnlyWhatHappened | cmd/healthd/main.go:68-98 | the context counts as signalled iff a signal was sent, and every role's exit is one it made |
| FailFast.RoleStops | cmd/healthd/main.go:81-99 | a role that returns stops, at once unless its error is fatal, and else after recording that error and cancelling the context |
| FailFast.SignalBringsDown | cmd/healthd/main.go:68-105 | after a signal, in every continuation, main leaves service at its next turn |
| FailFast.ShutdownCompletes | cmd/healthd/main.go:102-110 | out of service with all roles stopped, run returns at its next turn, without an error iff no role failed fatally |
| Settings.MergeAlgebra | internal/config/config.go:101-126 | inheriting is associative, idempotent and has unset parameters as identity |
| Settings.ProfileOnlyFills | internal/config/config.go:99-126 | inheriting sets what either side sets, and has no effect iff everything the profile sets was already set inline |
| Settings.FieldsAreIndependent | internal/config/config.go:101-126 | each field is inherited for itself, whatever the others hold |
| Settings.DefaultsAreAMerge | internal/config/config.go:357-378 | defaults act as a last profile |
| Settings.Params.InheritFrom | internal/config/config.go:101-126 | the in-place fill is the merge |
| Settings.Params.ApplyDefaults | internal/config/config.go:360-378 | the in-place defaulting is the merge with the defaults |
| Settings.ResolveProfileRefs | internal/config/config.go:292-313 | succeeds iff every named profile exists, merges exactly the chosen profile into each target, and on failure names the first bad target |
| Settings.PrepareIsIdempotent | internal/config/config.go:263-378 | resolving and defaulting twice is the same as once |
| Settings.FallbackIffNothingLeftToFill | internal/config/config.go:299-310 | the code agrees with field-by-field fallback iff only one profile is named or the default profile sets nothing that target and own profile leave unset |
| Settings.NoFallbackToDefaultProfile | internal/config/config.go:299-310 | a witness: an interval that only the default profile sets stays unset |
| Settings.ValidateTrigger | internal/config/config.go:570-587 | no problem iff trigger, window and minimum fit together |
| Settings.CheckNotify | internal/config/config.go:605-612 | no problem iff all listed channels exist; else the first that does not |
| Settings.ValidateTargets | internal/config/config.go:465-521 | no problem iff there are targets and all are valid; else the first that is not |
| Settings.LoadsIff | internal/config/config.go:263-388 | which configurations load, for all of them, read off the file before profiles and defaults are applied |
| Settings.LoadedConfig | internal/config/config.go:317-378 | what a loaded configuration runs with: inline values, then the one chosen profile, then the documented defaults, field by field; nothing else changes |
| Settings.AcceptedUnitsAreSane | internal/config/config.go:226-247 | every enabled unit of an accepted configuration has a positive interval, threshold and window at least 1, a known trigger, a usable minimum and defined channels |
| Settings.AcceptedUnitStates | cmd/healthd/main.go:137-148 | for every accepted unit and log the machine is unhealthy iff the unit's own trigger, window, minimum and threshold say so |
| Settings.BaseDelayIsUnbounded | internal/config/config.go:386-388 | every positive base delay is accepted, and its delays are the configured ones iff it is at most 8589 ms |
| Settings.AcceptedUnitsReact | cmd/healthd/main.go:137-148 | for every accepted unit the clamp is a no-op, a window exists, and alert and recovery come within the bounds of its mode |
| Wiring.PrefixesTellRolesApart | internal/roles/ping_monitor.go:49 | unit names of different roles never collide |
| Wiring.SharedUnitIffSameTarget | internal/roles/url_monitor.go:49 | two drivers share a unit iff they come from targets of one role with one address |
| Wiring.OwnUnitsIffDistinctAddresses | cmd/healthd/main.go:150-234 | every driver has its unit to itself iff no role lists an address twice |
| Wiring.EntriesAreOwnIffDistinctAddresses | cmd/healthd/main.go:150-234 | every unit's entry is its driver's in every interleaving iff no role lists an address twice |
| Wiring.DuplicateTargetsAreAccepted | internal/config/config.go:465-491 | any target of an accepted configuration can be listed twice and is still accepted |
| Wiring.SummaryListsTheWatched | cmd/healthd/main.go:150-234 | in every interleaving a summary lists a unit iff the accepted configuration enables it |
| Wiring.SummaryShowsHealth | cmd/healthd/main.go:150-234 | from accepted file to summary, in every interleaving: without duplicate addresses a unit shows unhealthy iff its own parameters say so of all but at most its newest check, with the failures and last success of those checks |
| Wiring.EveryListedChannelIsServed | internal/notify/dispatcher.go:45-50 | an alert of an accepted unit skips none of the channels the unit lists |

## Left out

- Probes and channels: HTTP, TCP, SMTP, SMS and speedtest execution are arbitrary outcomes.
- The pong server, its protocol and JSON encoding, the summary reporter and all logging.
- Nil registries and handles, which only tests use; every handle here has a registry.
- Alert detail texts and timestamps, which are copied through.
- Channel definitions: only their names are modelled, not their fields, defaults and validation, nor how channels are built.
- URL parsing: any predicate on addresses stands for it.
- Validation messages and the order in which whole roles are validated; `Load` says whether a configuration is accepted.
- Tickers and wall-clock time: a tick is one move, a clock reading an input.
- Overflow of the Go int counters `consecutive` and `next`, which take unbounded integers here.
- Delivery.Dispatcher.Deliver: takes the outcomes of a channel as a fixed stream; that siblings cannot change it is proved on the interleaving in FanOut.
- FanOut.EveryDeliveryFinishes: counts turns in which a waiting delivery's timer has fired, since time itself is not modelled.
- FleetRegistry.SpeedStatsOf: adds in exact arithmetic, while the source's float64 sum may round.
- FleetRegistry.AverageIsBetween: holds of that exact average; a rounded float64 one may leave the extremes by a rounding error.
- Start-up failures before any role runs: an unreadable file, a channel that cannot be built, no enabled role.
