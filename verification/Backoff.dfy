/** The retry delays (internal/notify/dispatcher.go), in the source's 64-bit
    nanosecond arithmetic. */
module Backoff {

  const MAX_BACKOFF_SHIFT: nat := 30
  const INT64_LIMIT: int := 0x8000_0000_0000_0000

  /** What a 64-bit product keeps of the exact one. */
  function WrapInt64(x: int): (r: int)
    ensures -INT64_LIMIT <= r < INT64_LIMIT
    ensures r == x <==> -INT64_LIMIT <= x < INT64_LIMIT
  {
    (x + INT64_LIMIT) % (2 * INT64_LIMIT) - INT64_LIMIT
  }

  /** Wrapping only ever loses multiples of 2^64. */
  lemma WrapIsCongruent(x: int)
    ensures (x - WrapInt64(x)) % 0x1_0000_0000_0000_0000 == 0
  {
  }

  function Pow2(n: nat): (p: nat)
    ensures p > 0
  {
    if n == 0 then 1 else 2 * Pow2(n - 1)
  }

  function Shift(attempt: nat): nat
    requires attempt >= 1
  {
    if attempt - 1 > MAX_BACKOFF_SHIFT then MAX_BACKOFF_SHIFT else attempt - 1
  }

  /** The delay after a failed attempt, counted from 1. */
  function Delay(base: int, attempt: nat): int
    requires attempt >= 1
  {
    WrapInt64(base * Pow2(Shift(attempt)))
  }

  lemma {:induction false} Pow2Monotone(m: nat, n: nat)
    requires m <= n
    ensures Pow2(m) <= Pow2(n)
  {
    if m < n {
      Pow2Monotone(m, n - 1);
    }
  }

  lemma ScaleMonotone(base: int, p: int, q: int)
    requires base >= 0 && p <= q
    ensures base * p <= base * q
  {
  }

  lemma BiggestFactor()
    ensures Pow2(MAX_BACKOFF_SHIFT) == 0x4000_0000
  {
    assert Pow2(10) == 1024;
    assert Pow2(20) == 1024 * 1024;
  }

  /** The delay is exact for every attempt precisely when the base delay is
      below 2^33 nanoseconds, which the configuration does not enforce. */
  lemma EveryDelayFits(base: int)
    requires 0 <= base < INT64_LIMIT
    ensures (forall a: nat :: a >= 1 ==> Delay(base, a) == base * Pow2(Shift(a))) <==> base < 0x2_0000_0000
  {
    BiggestFactor();
    if base < 0x2_0000_0000 {
      forall a: nat | a >= 1 ensures Delay(base, a) == base * Pow2(Shift(a)) {
        Pow2Monotone(Shift(a), MAX_BACKOFF_SHIFT);
        ScaleMonotone(base, Pow2(Shift(a)), 0x4000_0000);
        ScaleMonotone(base, 0, Pow2(Shift(a)));
      }
    } else {
      assert base * Pow2(Shift(31)) >= INT64_LIMIT;
      assert Delay(base, 31) != base * Pow2(Shift(31));
    }
  }

  /** The delays of one delivery are exact precisely when its last one is. */
  lemma DeliveryDelaysFit(base: int, maxAttempts: nat)
    requires 0 <= base < INT64_LIMIT && maxAttempts >= 2
    ensures (forall a: nat :: 1 <= a < maxAttempts ==> Delay(base, a) == base * Pow2(Shift(a))) <==>
            base * Pow2(Shift(maxAttempts - 1)) < INT64_LIMIT
  {
    var top := Pow2(Shift(maxAttempts - 1));
    ScaleMonotone(base, 0, top);
    if base * top < INT64_LIMIT {
      forall a: nat | 1 <= a < maxAttempts ensures Delay(base, a) == base * Pow2(Shift(a)) {
        Pow2Monotone(Shift(a), Shift(maxAttempts - 1));
        ScaleMonotone(base, Pow2(Shift(a)), top);
        ScaleMonotone(base, 0, Pow2(Shift(a)));
      }
    } else {
      assert Delay(base, maxAttempts - 1) != base * Pow2(Shift(maxAttempts - 1));
    }
  }

  /** The smallest shift, at most s, at which the exact product reaches the limit. */
  lemma {:induction false} FirstOverflow(base: int, s: nat) returns (first: nat)
    requires 0 < base < INT64_LIMIT && base * Pow2(s) >= INT64_LIMIT
    ensures first <= s && INT64_LIMIT <= base * Pow2(first) < 2 * INT64_LIMIT
  {
    assert s > 0;
    assert base * Pow2(s) == 2 * (base * Pow2(s - 1)) by {
      Distribute(base, Pow2(s - 1), Pow2(s - 1));
    }
    if base * Pow2(s - 1) >= INT64_LIMIT {
      first := FirstOverflow(base, s - 1);
    } else {
      first := s;
    }
  }

  /** Clamping the shift is meant to keep delays from turning negative or zero.
      It does precisely for base delays below 2^33 nanoseconds: every larger one
      has a negative delay. */
  lemma DelaysStayPositive(base: int)
    requires 0 < base < INT64_LIMIT
    ensures (forall a: nat :: a >= 1 ==> Delay(base, a) > 0) <==> base < 0x2_0000_0000
  {
    EveryDelayFits(base);
    if base < 0x2_0000_0000 {
      forall a: nat | a >= 1 ensures Delay(base, a) > 0 {
        assert Delay(base, a) == base * Pow2(Shift(a));
        StrictlyMore(base, 0, Pow2(Shift(a)));
      }
    } else {
      BiggestFactor();
      ScaleMonotone(0x4000_0000, 0x2_0000_0000, base);
      var s := FirstOverflow(base, MAX_BACKOFF_SHIFT);
      assert Shift(s + 1) == s;
      assert Delay(base, s + 1) < 0;
    }
  }

  /** Besides turning negative, a delay can also vanish. */
  lemma ClampedShiftCanOverflow()
    ensures Delay(0x2_0000_0000, 31) == -INT64_LIMIT
    ensures Delay(0x4_0000_0000, 31) == 0
  {
    BiggestFactor();
  }

  const NS_PER_MS: int := 1_000_000

  /** The base delay a dispatcher ends up with: the 64-bit conversion from
      milliseconds, then the constructor's clamp. */
  function BaseDelayNs(ms: int): (base: int)
    ensures 0 <= base < INT64_LIMIT
  {
    var ns := WrapInt64(ms * NS_PER_MS);
    if ns < 0 then 0 else ns
  }

  /** What becomes of any configured value: the 64-bit representative of the
      nanoseconds if that is not negative, else nothing. */
  lemma BaseDelayMeaning(ms: int, ns: int)
    requires -0x8000_0000_0000_0000 <= ns < 0x8000_0000_0000_0000
    requires (ms * 1_000_000 - ns) % 0x1_0000_0000_0000_0000 == 0
    ensures BaseDelayNs(ms) == if ns < 0 then 0 else ns
  {
    hide WrapInt64;
    WrapIsCongruent(ms * NS_PER_MS);
    OneRepresentative(ms * NS_PER_MS, WrapInt64(ms * NS_PER_MS), ns);
  }

  lemma OneRepresentative(x: int, r: int, s: int)
    requires -INT64_LIMIT <= r < INT64_LIMIT && -INT64_LIMIT <= s < INT64_LIMIT
    requires (x - r) % 0x1_0000_0000_0000_0000 == 0 == (x - s) % 0x1_0000_0000_0000_0000
    ensures r == s
  {
    var j, k := (x - r) / 0x1_0000_0000_0000_0000, (x - s) / 0x1_0000_0000_0000_0000;
    assert r - s == (k - j) * 0x1_0000_0000_0000_0000;
  }

  /** In configuration units: every delay is what was configured precisely up to
      8589 milliseconds. */
  lemma SafeBaseDelayMs(ms: int)
    requires ms >= 0
    ensures (forall a: nat :: a >= 1 ==> Delay(BaseDelayNs(ms), a) == ms * NS_PER_MS * Pow2(Shift(a))) <==> ms <= 8589
  {
    if ms * NS_PER_MS < INT64_LIMIT {
      EveryDelayFits(ms * NS_PER_MS);
    } else {
      assert Pow2(Shift(1)) == 1;
      assert Delay(BaseDelayNs(ms), 1) != ms * NS_PER_MS * Pow2(Shift(1));
    }
  }

  /** Delays double up to attempt 31 and are constant from there. */
  lemma DelaysDoubleThenStay(base: int, attempt: nat)
    requires 0 <= base < 0x2_0000_0000 && attempt >= 1
    ensures Delay(base, attempt + 1) == if attempt <= MAX_BACKOFF_SHIFT then 2 * Delay(base, attempt)
                                        else Delay(base, attempt)
    ensures Delay(base, attempt) >= 0
  {
    hide Delay;
    EveryDelayFits(base);
    ScaleMonotone(base, 0, Pow2(Shift(attempt)));
    if attempt <= MAX_BACKOFF_SHIFT {
      assert Pow2(Shift(attempt + 1)) == Pow2(Shift(attempt)) + Pow2(Shift(attempt));
      Distribute(base, Pow2(Shift(attempt)), Pow2(Shift(attempt)));
    }
  }

  /** The documented formula base * 2^(attempt - 1) holds exactly up to attempt
      31 and as long as it fits; for later attempts the code waits less. */
  lemma DocumentedFormula(base: int, attempt: nat)
    requires 0 <= base < INT64_LIMIT && attempt >= 1
    ensures Delay(base, attempt) == base * Pow2(attempt - 1) <==>
            base == 0 || (attempt <= 31 && base * Pow2(attempt - 1) < INT64_LIMIT)
  {
    ScaleMonotone(base, 0, Pow2(attempt - 1));
    if attempt <= 31 {
      assert Shift(attempt) == attempt - 1;
    } else if base > 0 {
      Pow2Monotone(31, attempt - 1);
      assert Pow2(31) == 2 * Pow2(MAX_BACKOFF_SHIFT);
      StrictlyMore(base, Pow2(MAX_BACKOFF_SHIFT), Pow2(attempt - 1));
      ScaleMonotone(base, 0, Pow2(MAX_BACKOFF_SHIFT));
    }
  }

  lemma StrictlyMore(base: int, p: int, q: int)
    requires base > 0 && p < q
    ensures base * p < base * q
  {
  }

  /** The time waited before attempt m starts. */
  function TotalDelay(base: int, m: nat): int
    requires m >= 1
  {
    if m == 1 then 0 else TotalDelay(base, m - 1) + Delay(base, m - 1)
  }

  /** The same in units of the base delay. */
  function TotalFactor(m: nat): int
    requires m >= 1
  {
    if m == 1 then 0 else TotalFactor(m - 1) + Pow2(Shift(m - 1))
  }

  lemma {:induction false} TotalIsScaled(base: int, m: nat)
    requires 0 <= base < 0x2_0000_0000 && m >= 1
    ensures TotalDelay(base, m) == base * TotalFactor(m)
  {
    if m > 1 {
      hide Pow2, Shift, Delay;
      TotalIsScaled(base, m - 1);
      EveryDelayFits(base);
      assert Delay(base, m - 1) == base * Pow2(Shift(m - 1));
      Distribute(base, TotalFactor(m - 1), Pow2(Shift(m - 1)));
    }
  }

  lemma {:induction false} FactorWhileDoubling(m: nat)
    requires 1 <= m <= 32
    ensures TotalFactor(m) == Pow2(m - 1) - 1
  {
    if m > 1 {
      FactorWhileDoubling(m - 1);
    }
  }

  lemma {:induction false} FactorOnceConstant(m: nat)
    requires m >= 32
    ensures TotalFactor(m) == Pow2(31) - 1 + (m - 32) * 0x4000_0000
  {
    hide Pow2;
    if m == 32 {
      FactorWhileDoubling(32);
    } else {
      FactorOnceConstant(m - 1);
      BiggestFactor();
    }
  }

  /** The whole wait before attempt m: a geometric sum up to attempt 32, then
      linear growth. */
  lemma TotalDelayClosedForm(base: int, m: nat)
    requires 0 <= base < 0x2_0000_0000 && m >= 1
    ensures TotalDelay(base, m) ==
            if m <= 32 then base * (Pow2(m - 1) - 1)
            else base * (Pow2(31) - 1 + (m - 32) * 0x4000_0000)
  {
    hide Pow2, TotalDelay, TotalFactor;
    TotalIsScaled(base, m);
    if m <= 32 {
      FactorWhileDoubling(m);
    } else {
      FactorOnceConstant(m);
    }
  }

  lemma Distribute(base: int, p: int, q: int)
    ensures base * (p + q) == base * p + base * q
  {
  }
}
