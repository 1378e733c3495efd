/** The rolling window of recent outcomes (internal/monitor/window.go). */
module RollingWindow {
  import opened Logs
  import opened Circular

  /** Any way of turning `sum` successes out of `len` into a percentage that is
      0 at none, 100 at all and never falls as `sum` grows. Exact division has
      these laws and so has correctly rounded binary floating point. */
  ghost predicate Lawful(f: (nat, nat) -> real) {
    && (forall n: nat :: 0 < n ==> f(0, n) == 0.0 && f(n, n) == 100.0)
    && (forall a: nat, b: nat, n: nat :: a <= b <= n && 0 < n ==> f(a, n) <= f(b, n))
  }

  type Percent = f: (nat, nat) -> real | Lawful(f)
    witness (s: nat, n: nat) => if s < n then 0.0 else 100.0

  function ExactPercent(sum: nat, len: nat): (p: real) {
    if len == 0 then 100.0 else sum as real / len as real * 100.0
  }

  lemma DivisionMonotone(a: real, b: real, d: real)
    requires a <= b && d > 0.0
    ensures a / d * 100.0 <= b / d * 100.0
  {
    assert (b - a) / d >= 0.0;
  }

  lemma ExactPercentLawful()
    ensures Lawful(ExactPercent)
  {
    forall a: nat, b: nat, n: nat | a <= b <= n && 0 < n
      ensures ExactPercent(a, n) <= ExactPercent(b, n)
    {
      DivisionMonotone(a as real, b as real, n as real);
    }
  }

  /** Availability of a window's contents: 100 while nothing was recorded. */
  function Availability(pct: Percent, contents: seq<bool>): real {
    if contents == [] then 100.0 else pct(CountTrue(contents), |contents|)
  }

  class Window {
    const size: nat
    const buf: array<bool>
    var head: nat
    var len: nat
    var sum: int
    ghost var log: seq<bool>  // every outcome ever added

    ghost predicate Valid()
      reads this, buf
    {
      && 0 < size == buf.Length
      && head < size && len <= size
      && (len < size ==> head == len)
      && Held(buf[..], head, len) == LastN(log, size)
      && sum == CountTrue(LastN(log, size))
    }

    constructor (size: nat)
      requires size >= 1
      ensures Valid() && fresh(buf)
      ensures this.size == size && log == []
    {
      this.size := size;
      buf := new bool[size](_ => false);
      head, len, sum, log := 0, 0, 0, [];
    }

    method Add(success: bool)
      requires Valid()
      modifies this, buf
      ensures Valid()
      ensures log == old(log) + [success]
    {
      hide Held, LastN, CountTrue;
      ghost var cells, h := buf[..], head;
      HeldTracksLog(cells, head, len, log, success);
      HeldLength(cells, head, len, log);
      CountAfterPush(log, success, size);
      if len == size {
        OldestIsAtHead(cells, head, log);
        if buf[head] {
          sum := sum - 1;
        }
      } else {
        len := len + 1;
      }
      buf[head] := success;
      if success {
        sum := sum + 1;
      }
      head := (head + 1) % size;
      log := log + [success];
      assert buf[..] == cells[h := success];
      assert head == Next(h, size);
    }

    predicate Full()
      reads this
    {
      len == size
    }

    method ReportAvailability(pct: Percent) returns (a: real)
      requires Valid()
      ensures a == Availability(pct, LastN(log, size))
      ensures a == if log == [] then 100.0 else pct(CountTrue(LastN(log, size)), |LastN(log, size)|)
    {
      if len == 0 {
        return 100.0;
      }
      return pct(sum, len);
    }
  }
}
