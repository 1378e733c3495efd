/** Retrying delivery of an alert and its concurrent fan-out
    (internal/notify/dispatcher.go). */
module Delivery {
  import opened Logs
  import opened Backoff

  /** What one call of a channel's Notify comes to. */
  datatype Outcome = Accepted | Failed(error: string) | Panicked(value: string)

  /** A panic is one more error. */
  function SafeNotify(o: Outcome): Option<string> {
    match o
    case Accepted => None
    case Failed(error) => Some(error)
    case Panicked(value) => Some("channel panic: " + value)
  }

  datatype Result = Delivered | Cancelled | Exhausted(lastError: string)

  /** The error text reported for an outcome that was not accepted. */
  predicate IsErrorOf(text: string, o: Outcome) {
    match o
    case Accepted => false
    case Failed(error) => text == error
    case Panicked(value) => text == "channel panic: " + value
  }

  /** An outcome for every attempt, counted from 1. */
  type Script = nat -> Outcome

  /** Attempts 1..calls were made and no more: each passed its cancellation
      check, none but the last was accepted, and making another was ruled out. */
  ghost predicate MadeExactly(outcome: Script, cancelled: nat -> bool, max: nat, calls: nat) {
    && calls <= max
    && (forall i :: 1 <= i <= calls ==> !cancelled(i))
    && (forall i :: 1 <= i < calls ==> !outcome(i).Accepted?)
    && (calls == max || cancelled(calls + 1) || (calls > 0 && outcome(calls).Accepted?))
  }

  /** That fixes the number of calls. */
  lemma MadeExactlyUnique(outcome: Script, cancelled: nat -> bool, max: nat, m: nat, n: nat)
    requires MadeExactly(outcome, cancelled, max, m) && MadeExactly(outcome, cancelled, max, n)
    ensures m == n
  {
  }

  /** The first accepted attempt, or one past the limit. */
  function FirstAccepted(outcome: Script, from: nat, max: nat): (k: nat)
    requires 1 <= from <= max + 1
    ensures from <= k <= max + 1
    ensures forall i :: from <= i < k ==> !outcome(i).Accepted?
    ensures k <= max ==> outcome(k).Accepted?
    decreases max + 1 - from
  {
    if from > max || outcome(from).Accepted? then from else FirstAccepted(outcome, from + 1, max)
  }

  /** Never cancelled, a channel gets calls up to its first success or the limit. */
  lemma CallsWithoutCancellation(outcome: Script, cancelled: nat -> bool, max: nat, calls: nat)
    requires MadeExactly(outcome, cancelled, max, calls) && forall i: nat :: !cancelled(i)
    ensures var first := FirstAccepted(outcome, 1, max); calls == if first <= max then first else max
  {
    var first := FirstAccepted(outcome, 1, max);
    MadeExactlyUnique(outcome, cancelled, max, calls, if first <= max then first else max);
  }

  class Dispatcher {
    const maxAttempts: nat
    const baseDelay: int
    const channels: set<string>

    constructor (channels: set<string>, maxAttempts: int, baseDelay: int)
      ensures this.channels == channels
      ensures this.maxAttempts == if maxAttempts < 1 then 1 else maxAttempts
      ensures this.baseDelay == if baseDelay < 0 then 0 else baseDelay
    {
      this.channels := channels;
      this.maxAttempts := if maxAttempts < 1 then 1 else maxAttempts;
      this.baseDelay := if baseDelay < 0 then 0 else baseDelay;
    }

    /** One channel's delivery. `cancelled(i)` is what the context check before
        attempt i finds and `interrupted(i)` whether the context is done when
        the wait after it is over; a context stays done. When both the timer and
        the context are ready, `timerFirst(i)` says which the select takes. */
    method Deliver(outcome: Script, cancelled: nat -> bool, interrupted: nat -> bool, timerFirst: nat -> bool)
      returns (result: Result, calls: nat, waits: seq<int>)
      requires maxAttempts >= 1
      requires forall i: nat :: (cancelled(i) ==> interrupted(i)) && (interrupted(i) ==> cancelled(i + 1))
      ensures MadeExactly(outcome, cancelled, maxAttempts, calls)
      ensures result == Delivered <==> calls > 0 && outcome(calls).Accepted?
      ensures result.Exhausted? <==> calls == maxAttempts && !outcome(calls).Accepted?
      ensures result.Exhausted? ==> IsErrorOf(result.lastError, outcome(maxAttempts))
      ensures |waits| == if calls == 0 then 0
                         else if result == Cancelled then calls
                         else calls - 1
      ensures forall i :: 0 <= i < |waits| ==> waits[i] == Delay(baseDelay, i + 1)
    {
      calls, waits := 0, [];
      var lastErr := "";
      var attempt := 1;
      while attempt <= maxAttempts
        invariant 1 <= attempt <= maxAttempts + 1 && calls == attempt - 1
        invariant forall i :: 1 <= i <= calls ==> !cancelled(i) && !outcome(i).Accepted?
        invariant |waits| == if attempt <= maxAttempts then calls else calls - 1
        invariant forall i :: 0 <= i < |waits| ==> waits[i] == Delay(baseDelay, i + 1)
        invariant calls > 0 ==> IsErrorOf(lastErr, outcome(calls))
      {
        if cancelled(attempt) {
          return Cancelled, calls, waits;
        }
        var err := SafeNotify(outcome(attempt));
        calls := calls + 1;
        if err.None? {
          return Delivered, calls, waits;
        }
        lastErr := err.value;
        if attempt < maxAttempts {
          waits := waits + [Delay(baseDelay, attempt)];
          if interrupted(attempt) && !timerFirst(attempt) {
            return Cancelled, calls, waits;
          }
        }
        attempt := attempt + 1;
      }
      return Exhausted(lastErr), calls, waits;
    }

    /** The deliveries that Dispatch starts: one for every listed name that is a
        channel, in order, duplicates included. */
    method Start(names: seq<string>) returns (started: seq<string>)
      ensures started == Known(names)
    {
      started := [];
      for i := 0 to |names|
        invariant started == Known(names[..i])
      {
        assert names[..i + 1][..i] == names[..i];
        if names[i] in channels {
          started := started + [names[i]];
        }
      }
      assert names[..|names|] == names;
    }

    function Known(names: seq<string>): (known: seq<string>)
      ensures forall name :: name in known <==> name in names && name in channels
      ensures forall name :: multiset(known)[name] == if name in channels then multiset(names)[name] else 0
    {
      if names == [] then []
      else
        assert names == names[..|names| - 1] + [names[|names| - 1]];
        Known(names[..|names| - 1]) + if names[|names| - 1] in channels then [names[|names| - 1]] else []
    }
  }
}
