/** Round-robin probing of sites that each stay up or down, fed into the alert
    machine (internal/roles/internet_check.go with internal/monitor). */
module RoundRobin {
  import opened Logs
  import opened RollingWindow
  import opened AlertMachine
  import opened AlertTheorems

  /** The outcome of every future check, by check number. */
  type Schedule = nat -> bool

  /** Check number i probes site i mod n, which is up exactly if `up` says so. */
  function Cyclic(up: seq<bool>): Schedule
    requires up != []
  {
    (i: nat) => up[i % |up|]
  }

  /** The outcomes of the first k checks. */
  function Probes(site: Schedule, k: nat): (log: seq<bool>)
    ensures |log| == k && forall i :: 0 <= i < k ==> log[i] == site(i)
  {
    seq(k, i requires 0 <= i => site(i))
  }

  lemma ProbesPush(site: Schedule, k: nat)
    ensures Probes(site, k + 1) == Probes(site, k) + [site(k)]
  {
  }

  /** The event emitted by check number j. */
  function ProbeEvent(cfg: Config, pct: Percent, site: Schedule, j: nat): Event {
    EventOn(cfg, pct, Probes(site, j), site(j))
  }

  lemma ProbeEventIsChange(cfg: Config, pct: Percent, site: Schedule, j: nat)
    ensures ProbeEvent(cfg, pct, site, j) ==
            Change(After(cfg, pct, Probes(site, j)).state, After(cfg, pct, Probes(site, j + 1)).state)
  {
    ProbesPush(site, j);
    EventIsStateChange(cfg, pct, Probes(site, j), site(j));
  }

  // ----- availability mode: windows that all look alike -----

  predicate SameLater(site: Schedule, i: nat, w: nat) {
    site(i + w) == site(i)
  }

  /** Looking w checks later always meets the same outcome. */
  ghost predicate Recurs(site: Schedule, w: nat) {
    forall i: nat :: SameLater(site, i, w)
  }

  /** The successes among the last w of the first k checks. */
  function Successes(site: Schedule, w: nat, k: nat): nat {
    CountTrue(LastN(Probes(site, k), w))
  }

  lemma SuccessesSlide(site: Schedule, w: nat, k: nat)
    requires 0 < w <= k
    ensures Successes(site, w, k + 1) ==
            Successes(site, w, k) + (if site(k) then 1 else 0) - (if site(k - w) then 1 else 0)
  {
    ProbesPush(site, k);
    CountAfterPush(Probes(site, k), site(k), w);
  }

  lemma {:induction false} SteadyFrom(site: Schedule, w: nat, k: nat)
    requires 0 < w <= k && Recurs(site, w)
    ensures Successes(site, w, k) == Successes(site, w, w)
  {
    hide CountTrue, LastN;
    if w < k {
      SteadyFrom(site, w, k - 1);
      SuccessesSlide(site, w, k - 1);
      assert SameLater(site, k - 1 - w, w);
    }
  }

  /** Every full window holds the same number of successes exactly when outcomes
      recur with the window's length. */
  lemma SteadyWindows(site: Schedule, w: nat)
    requires w > 0
    ensures (forall k: nat :: w <= k ==> Successes(site, w, k) == Successes(site, w, w)) <==> Recurs(site, w)
  {
    if Recurs(site, w) {
      forall k: nat | w <= k ensures Successes(site, w, k) == Successes(site, w, w) {
        SteadyFrom(site, w, k);
      }
    }
    if forall k: nat :: w <= k ==> Successes(site, w, k) == Successes(site, w, w) {
      forall i: nat ensures SameLater(site, i, w) {
        SuccessesSlide(site, w, i + w);
        assert Successes(site, w, i + w) == Successes(site, w, i + w + 1) == Successes(site, w, w);
      }
    }
  }

  lemma SteadyState(cfg: Config, pct: Percent, site: Schedule, k: nat)
    requires cfg.trigger == TriggerAvailability && cfg.HasWindow() && Recurs(site, cfg.windowSize)
    ensures After(cfg, pct, Probes(site, k)).state == Unhealthy <==>
            && k >= cfg.windowSize
            && pct(Successes(site, cfg.windowSize, cfg.windowSize), cfg.windowSize) < cfg.minAvailability
  {
    hide After, CountTrue;
    StateClosedForm(cfg, pct, Probes(site, k));
    if cfg.windowSize <= k {
      SteadyFrom(site, cfg.windowSize, k);
    }
  }

  /** Availability mode over an unbounded run: when outcomes recur with the
      window's length, the only event there can ever be is an alert at the check
      that fills the window, and it comes exactly if that window is too bad. */
  lemma SteadySitesSignalOnce(cfg: Config, pct: Percent, site: Schedule, j: nat)
    requires cfg.trigger == TriggerAvailability && cfg.HasWindow() && Recurs(site, cfg.windowSize)
    ensures ProbeEvent(cfg, pct, site, j) ==
            if j + 1 == cfg.windowSize
               && pct(Successes(site, cfg.windowSize, cfg.windowSize), cfg.windowSize) < cfg.minAvailability
            then AlertUnhealthy else NoEvent
  {
    hide ProbeEvent, After, Probes, Successes, Recurs;
    ProbeEventIsChange(cfg, pct, site, j);
    SteadyState(cfg, pct, site, j);
    SteadyState(cfg, pct, site, j + 1);
  }

  // ----- windows of whole rounds -----

  lemma ModUnique(x: nat, q: nat, r: nat, n: nat)
    requires r < n && x == q * n + r
    ensures x % n == r
  {
    var d := q - x / n;
    assert d * n == x % n - r;
    assert d == 0;
  }

  lemma RoundsLater(up: seq<bool>, i: nat, q: nat)
    requires up != []
    ensures Cyclic(up)(i + q * |up|) == Cyclic(up)(i)
  {
    var n := |up|;
    assert i + q * n == (i / n + q) * n + i % n;
    ModUnique(i + q * n, i / n + q, i % n, n);
  }

  lemma RoundPosition(up: seq<bool>, i: nat, q: nat)
    requires i < |up|
    ensures Cyclic(up)(q * |up| + i) == up[i]
  {
    ModUnique(q * |up| + i, q, i, |up|);
  }

  lemma ProbesSplit(site: Schedule, m: nat, n: nat)
    ensures Probes(site, m + n) == Probes(site, m) + seq(n, i requires 0 <= i => site(m + i))
  {
  }

  lemma NextRound(up: seq<bool>, q: nat)
    requires up != []
    ensures Probes(Cyclic(up), (q + 1) * |up|) == Probes(Cyclic(up), q * |up|) + up
  {
    var m, round := q * |up|, seq(|up|, i requires 0 <= i => Cyclic(up)(q * |up| + i));
    ProbesSplit(Cyclic(up), m, |up|);
    assert (q + 1) * |up| == m + |up|;
    forall i | 0 <= i < |up| ensures round[i] == up[i] {
      RoundPosition(up, i, q);
    }
    assert round == up;
  }

  lemma {:induction false} RoundsCount(up: seq<bool>, q: nat)
    requires up != []
    ensures CountTrue(Probes(Cyclic(up), q * |up|)) == q * CountTrue(up)
  {
    if q > 0 {
      RoundsCount(up, q - 1);
      NextRound(up, q - 1);
      CountConcat(Probes(Cyclic(up), (q - 1) * |up|), up);
      assert q * CountTrue(up) == (q - 1) * CountTrue(up) + CountTrue(up);
    }
  }

  lemma RoundsRecur(up: seq<bool>, q: nat)
    requires up != []
    ensures Recurs(Cyclic(up), q * |up|)
  {
    forall i: nat ensures SameLater(Cyclic(up), i, q * |up|) {
      RoundsLater(up, i, q);
    }
  }

  /** Windows are steady for every set of n sites, whatever their statuses,
      exactly when the window is a whole number of rounds. */
  lemma SteadyForAllSitesIffWholeRounds(n: nat, w: nat)
    requires n > 0
    ensures (forall up: seq<bool> :: |up| == n ==> Recurs(Cyclic(up), w)) <==> w % n == 0
  {
    if w % n == 0 {
      forall up: seq<bool> | |up| == n ensures Recurs(Cyclic(up), w) {
        RoundsRecur(up, w / n);
        assert w / n * n == w;
      }
    } else {
      var up := seq(n, i => i == 0);
      assert !SameLater(Cyclic(up), 0, w);
    }
  }

  /** A window of q whole rounds: every full window holds exactly q times the
      number of up sites, so at most one event ever fires. */
  lemma WholeRoundsSignalOnce(cfg: Config, pct: Percent, up: seq<bool>, q: nat, j: nat)
    requires cfg.trigger == TriggerAvailability && up != [] && q > 0
    requires cfg.windowSize == q * |up|
    ensures j >= cfg.windowSize ==> Successes(Cyclic(up), cfg.windowSize, j) == q * CountTrue(up)
    ensures ProbeEvent(cfg, pct, Cyclic(up), j) ==
            if j + 1 == cfg.windowSize && pct(q * CountTrue(up), cfg.windowSize) < cfg.minAvailability
            then AlertUnhealthy else NoEvent
  {
    hide ProbeEvent, Recurs, CountTrue, Cyclic;
    RoundsRecur(up, q);
    RoundsCount(up, q);
    assert q * |up| > 0;
    SteadySitesSignalOnce(cfg, pct, Cyclic(up), j);
    if j >= cfg.windowSize {
      SteadyFrom(Cyclic(up), cfg.windowSize, j);
    }
  }

  /** Windows taken a period apart are equal. */
  lemma WindowsRepeat(site: Schedule, w: nat, k: nat, m: nat)
    requires w <= k && Recurs(site, m)
    ensures Successes(site, w, k + m) == Successes(site, w, k)
  {
    hide CountTrue;
    var a, b := LastN(Probes(site, k + m), w), LastN(Probes(site, k), w);
    forall t | 0 <= t < w ensures a[t] == b[t] {
      assert SameLater(site, k - w + t, m);
    }
    assert a == b;
  }

  /** More successes in a full window are a strictly higher percentage. */
  ghost predicate StrictAt(pct: Percent, w: nat) {
    forall a: nat, b: nat :: a < b <= w ==> pct(a, w) < pct(b, w)
  }

  lemma ExactPercentIsStrict(w: nat, a: nat, b: nat)
    requires a < b <= w
    ensures ExactPercent(a, w) < ExactPercent(b, w)
  {
    assert (b - a) as real / w as real > 0.0;
    assert b as real / w as real == a as real / w as real + (b - a) as real / w as real;
  }

  lemma FullWindowState(cfg: Config, pct: Percent, site: Schedule, k: nat)
    requires cfg.trigger == TriggerAvailability && cfg.HasWindow() && k >= cfg.windowSize
    ensures After(cfg, pct, Probes(site, k)).state == Unhealthy <==>
            pct(Successes(site, cfg.windowSize, k), cfg.windowSize) < cfg.minAvailability
  {
    hide After, CountTrue;
    StateClosedForm(cfg, pct, Probes(site, k));
  }

  /** A change of state between two full windows comes back after every period. */
  lemma EventRepeats(cfg: Config, pct: Percent, site: Schedule, k: nat, m: nat)
    requires cfg.trigger == TriggerAvailability && cfg.HasWindow() && k >= cfg.windowSize && Recurs(site, m)
    requires pct(Successes(site, cfg.windowSize, k), cfg.windowSize) < cfg.minAvailability <==>
             pct(Successes(site, cfg.windowSize, k + 1), cfg.windowSize) >= cfg.minAvailability
    ensures ProbeEvent(cfg, pct, site, k + m) != NoEvent
  {
    hide After, ProbeEvent, Probes, Successes, Recurs;
    WindowsRepeat(site, cfg.windowSize, k, m);
    WindowsRepeat(site, cfg.windowSize, k + 1, m);
    assert k + 1 + m == k + m + 1;
    FullWindowState(cfg, pct, site, k + m);
    FullWindowState(cfg, pct, site, k + m + 1);
    ProbeEventIsChange(cfg, pct, site, k + m);
  }

  /** Two full windows that differ are told apart by some minimum. */
  lemma SeparatingMinimum(pct: Percent, w: nat, low: nat, high: nat) returns (min: real)
    requires StrictAt(pct, w) && low < high <= w
    ensures 0.0 < min <= 100.0 && pct(low, w) < min <= pct(high, w)
  {
    min := pct(high, w);
    assert pct(0, w) == 0.0 && pct(w, w) == 100.0;
    assert pct(0, w) < pct(high, w) <= pct(w, w);
  }

  /** Without recurrence two successive full windows differ. */
  lemma UnevenWindows(site: Schedule, w: nat) returns (k: nat)
    requires w > 0 && !Recurs(site, w)
    ensures k >= w && Successes(site, w, k + 1) != Successes(site, w, k)
  {
    var i: nat :| !SameLater(site, i, w);
    hide Successes;
    k := i + w;
    SuccessesSlide(site, w, k);
  }

  lemma CrossingMinimum(pct: Percent, site: Schedule, w: nat, k: nat) returns (min: real)
    requires StrictAt(pct, w) && Successes(site, w, k + 1) != Successes(site, w, k)
    ensures 0.0 < min <= 100.0
    ensures pct(Successes(site, w, k), w) < min <==> pct(Successes(site, w, k + 1), w) >= min
  {
    CountBound(site, w, k);
    CountBound(site, w, k + 1);
    hide Successes;
    var here, next := Successes(site, w, k), Successes(site, w, k + 1);
    if here < next {
      min := SeparatingMinimum(pct, w, here, next);
    } else {
      min := SeparatingMinimum(pct, w, next, here);
    }
  }

  /** Without recurrence there is a minimum for which the unit never settles: it
      signals at check k and at every whole number of rounds after it. So steady
      windows are also needed for one signal at most, whatever the minimum. */
  lemma UnevenWindowsFlap(cfg: Config, pct: Percent, up: seq<bool>) returns (k: nat, min: real)
    requires cfg.trigger == TriggerAvailability && cfg.HasWindow() && StrictAt(pct, cfg.windowSize)
    requires up != [] && !Recurs(Cyclic(up), cfg.windowSize)
    ensures k >= cfg.windowSize && 0.0 < min <= 100.0
    ensures forall q: nat :: ProbeEvent(cfg.(minAvailability := min), pct, Cyclic(up), k + q * |up|) != NoEvent
  {
    hide ProbeEvent, Successes, Cyclic, Recurs, StrictAt;
    k := UnevenWindows(Cyclic(up), cfg.windowSize);
    min := CrossingMinimum(pct, Cyclic(up), cfg.windowSize, k);
    forall q: nat ensures ProbeEvent(cfg.(minAvailability := min), pct, Cyclic(up), k + q * |up|) != NoEvent {
      RoundsRecur(up, q);
      EventRepeats(cfg.(minAvailability := min), pct, Cyclic(up), k, q * |up|);
    }
  }

  lemma CountBound(site: Schedule, w: nat, k: nat)
    ensures Successes(site, w, k) <= w
  {
  }

  // ----- consecutive mode: runs of down sites -----

  /** t down sites in a row from check p. */
  ghost predicate DownRun(site: Schedule, p: nat, t: nat) {
    forall i: nat :: p <= i < p + t ==> !site(i)
  }

  lemma DownRunFromFirstRound(up: seq<bool>, p: nat, t: nat)
    requires up != [] && DownRun(Cyclic(up), p, t)
    ensures DownRun(Cyclic(up), p % |up|, t)
  {
    var q, n := p / |up|, |up|;
    assert p == p % n + q * n;
    forall i: nat | p % n <= i < p % n + t ensures !Cyclic(up)(i) {
      RoundsLater(up, i, q);
      assert p <= i + q * n < p + t;
    }
  }

  lemma {:induction false} UnhealthyWasAlerted(cfg: Config, pct: Percent, site: Schedule, k: nat) returns (j: nat)
    requires After(cfg, pct, Probes(site, k)).state == Unhealthy
    ensures j < k && ProbeEvent(cfg, pct, site, j) == AlertUnhealthy
  {
    ProbeEventIsChange(cfg, pct, site, k - 1);
    if After(cfg, pct, Probes(site, k - 1)).state == Unhealthy {
      j := UnhealthyWasAlerted(cfg, pct, site, k - 1);
    } else {
      j := k - 1;
    }
  }

  /** Threshold many down checks in a row from check p make an alert come by
      the last of them. */
  lemma DownRunAlerts(cfg: Config, pct: Percent, site: Schedule, p: nat) returns (j: nat)
    requires cfg.trigger == TriggerConsecutive && DownRun(site, p, cfg.Threshold())
    ensures j < p + cfg.Threshold() && ProbeEvent(cfg, pct, site, j) == AlertUnhealthy
  {
    var k := p + cfg.Threshold();
    StateClosedForm(cfg, pct, Probes(site, k));
    j := UnhealthyWasAlerted(cfg, pct, site, k);
  }

  /** An alert is always the last of threshold many down checks in a row. */
  lemma AlertEndsDownRun(cfg: Config, pct: Percent, site: Schedule, j: nat)
    requires cfg.trigger == TriggerConsecutive && ProbeEvent(cfg, pct, site, j) == AlertUnhealthy
    ensures j + 1 >= cfg.Threshold() && DownRun(site, j + 1 - cfg.Threshold(), cfg.Threshold())
  {
    var log := Probes(site, j + 1);
    ProbeEventIsChange(cfg, pct, site, j);
    StateClosedForm(cfg, pct, log);
    forall i: nat | j + 1 - cfg.Threshold() <= i < j + 1 ensures !site(i) {
      assert !log[i];
    }
  }

  /** Consecutive mode: an alert ever comes exactly if threshold many sites are
      down in a row in cyclic order, and then one comes within the first
      |up| - 1 + threshold checks. All sites down is an endless run. */
  lemma AlertIffDownRun(cfg: Config, pct: Percent, up: seq<bool>)
    requires cfg.trigger == TriggerConsecutive && up != []
    ensures (exists j: nat :: ProbeEvent(cfg, pct, Cyclic(up), j) == AlertUnhealthy) <==>
            (exists p: nat :: p < |up| && DownRun(Cyclic(up), p, cfg.Threshold()))
    ensures (exists p: nat :: p < |up| && DownRun(Cyclic(up), p, cfg.Threshold())) ==>
            (exists j: nat :: j < |up| - 1 + cfg.Threshold()
                              && ProbeEvent(cfg, pct, Cyclic(up), j) == AlertUnhealthy)
  {
    var t := cfg.Threshold();
    if j: nat :| ProbeEvent(cfg, pct, Cyclic(up), j) == AlertUnhealthy {
      AlertEndsDownRun(cfg, pct, Cyclic(up), j);
      DownRunFromFirstRound(up, j + 1 - t, t);
      assert DownRun(Cyclic(up), (j + 1 - t) % |up|, t);
    }
    if p: nat :| p < |up| && DownRun(Cyclic(up), p, t) {
      var j := DownRunAlerts(cfg, pct, Cyclic(up), p);
    }
  }
}
