/** Retry delays, in the int64 nanoseconds of the source: exact while the product fits, and what happens after. */
module Backoff {

  const TWO63: int := 0x8000_0000_0000_0000
  const TWO64: int := 0x1_0000_0000_0000_0000

  /** Two's complement: what 64-bit arithmetic makes of an integer. */
  function Wrap(x: int): (w: int)
    ensures -TWO63 <= w < TWO63
  {
    (x + TWO63) % TWO64 - TWO63
  }

  predicate Fits(x: int) {
    -TWO63 <= x < TWO63
  }

  lemma WrapFits(x: int)
    requires Fits(x)
    ensures Wrap(x) == x
  {}

  /** Adding a multiple of 2^64 makes no difference. */
  lemma {:induction false} WrapPeriod(x: int, m: int)
    ensures Wrap(x + m * TWO64) == Wrap(x)
    decreases if m < 0 then -m else m
  {
    if m > 0 {
      WrapPeriod(x, m - 1);
      WrapOnce(x + (m - 1) * TWO64);
    } else if m < 0 {
      WrapPeriod(x, m + 1);
      WrapOnce(x + m * TWO64);
    }
  }

  lemma WrapOnce(x: int)
    ensures Wrap(x + TWO64) == Wrap(x)
  {}

  lemma WrapIs(x: int) returns (m: int)
    ensures Wrap(x) == x + m * TWO64
  {
    m := -((x + TWO63) / TWO64);
  }

  /** Wrapping early or late gives the same sum and the same product. */
  lemma WrapAdd(a: int, b: int)
    ensures Wrap(Wrap(a) + Wrap(b)) == Wrap(a + b)
  {
    var m := WrapIs(a);
    var n := WrapIs(b);
    WrapPeriod(a + b, m + n);
  }

  lemma WrapMul(a: int, b: int)
    ensures Wrap(Wrap(a) * b) == Wrap(a * b)
  {
    var m := WrapIs(a);
    assert Wrap(a) * b == a * b + (m * b) * TWO64;
    WrapPeriod(a * b, m * b);
  }

  function Pow2(n: nat): (p: nat)
    ensures p >= 1
  {
    if n == 0 then 1 else 2 * Pow2(n - 1)
  }

  /** `1 << k` on an int64; all bits are gone from 64 on. */
  function ShiftOne(k: nat): int {
    if k >= 64 then 0 else Wrap(Pow2(k))
  }

  lemma {:induction false} Pow2Adds(a: nat, b: nat)
    ensures Pow2(a + b) == Pow2(a) * Pow2(b)
  {
    if b > 0 {
      Pow2Adds(a, b - 1);
      assert Pow2(a + b) == 2 * Pow2(a + (b - 1));
    }
  }

  lemma Pow2Small()
    ensures Pow2(1) == 2 && Pow2(4) == 16 && Pow2(6) == 64
  {}

  /** The powers the limits below are about. */
  lemma Pow2Values()
    ensures Pow2(32) == 0x1_0000_0000 && Pow2(33) == 0x2_0000_0000
    ensures Pow2(54) == 0x40_0000_0000_0000 && Pow2(64) == TWO64
  {
    hide Pow2;
    Pow2Small();
    Pow2Adds(4, 4);
    Pow2Adds(8, 8);
    Pow2Adds(16, 6);
    Pow2Adds(16, 16);
    Pow2Adds(32, 1);
    Pow2Adds(32, 22);
    Pow2Adds(32, 32);
  }

  lemma ShiftIsWrap(k: nat)
    ensures ShiftOne(k) == Wrap(Pow2(k))
  {
    if k >= 64 {
      Pow2Adds(k - 64, 64);
      Pow2Values();
      WrapPeriod(0, Pow2(k - 64));
    }
  }

  function Fib(n: nat): nat {
    if n < 2 then n else Fib(n - 1) + Fib(n - 2)
  }

  lemma Distribute(a: int, b: int, c: int, d: int)
    ensures (a + b) * c + a * d == a * (c + d) + b * c
  {}

  lemma {:induction false} FibAdds(m: nat, n: nat)
    ensures Fib(m + n + 1) == Fib(m + 1) * Fib(n + 1) + Fib(m) * Fib(n)
    decreases n
  {
    hide Fib;
    FibStep(m);
    FibStep(n);
    if n > 0 {
      FibAdds(m + 1, n - 1);
      assert m + 1 + (n - 1) + 1 == m + n + 1;
      Distribute(Fib(m + 1), Fib(m), Fib(n), Fib(n - 1));
    }
  }

  lemma FibStep(n: nat)
    ensures Fib(0) == 0 && Fib(1) == 1
    ensures Fib(n + 2) == Fib(n + 1) + Fib(n)
    ensures n >= 1 ==> Fib(n + 1) == Fib(n) + Fib(n - 1)
  {}

  lemma FibAround12()
    ensures Fib(11) == 89 && Fib(12) == 144 && Fib(13) == 233
  {
    hide Fib;
    FibSmall();
    FibAdds(5, 5);
    FibAdds(6, 5);
    FibAdds(6, 6);
  }

  lemma FibSmall()
    ensures Fib(5) == 5 && Fib(6) == 8 && Fib(7) == 13
  {}

  lemma FibAround24()
    ensures Fib(24) == 46368 && Fib(25) == 75025
  {
    hide Fib;
    FibAround12();
    FibAdds(12, 11);
    FibAdds(12, 12);
  }

  lemma FibValues()
    ensures Fib(49) == 7778742049 && Fib(50) == 12586269025
  {
    hide Fib;
    FibAround24();
    FibStep(24);
    FibAdds(24, 24);
    FibAdds(25, 24);
  }

  /** The loop, in int64: the recursive definition, wrapped. */
  method Fibonacci(n: int) returns (r: int)
    requires Fits(n)
    ensures n <= 1 ==> r == n
    ensures n >= 0 ==> r == Wrap(Fib(n))
  {
    if n <= 1 {
      if n >= 0 { WrapFits(Fib(n)); }
      return n;
    }
    var a, b := 0, 1;
    for i := 2 to n + 1
      invariant a == Wrap(Fib(i - 2)) && b == Wrap(Fib(i - 1))
    {
      WrapAdd(Fib(i - 2), Fib(i - 1));
      a, b := b, Wrap(a + b);
    }
    r := b;
  }

  datatype Strategy = Exponential | FibonacciStrategy | Fixed | Unknown

  datatype Config = Config(strategy: Strategy, base: int, maxDelay: int)

  const SECOND: int := 1_000_000_000
  const DAY: int := 86_400 * SECOND

  const DEFAULT_BACKOFF := Config(Exponential, 2 * SECOND, DAY)
  const FIBONACCI_BACKOFF := Config(FibonacciStrategy, SECOND, DAY)

  function Clamp(delay: int, maxDelay: int): int {
    if delay > maxDelay then maxDelay else delay
  }

  /** The delay as mathematics has it. */
  function Ideal(cfg: Config, n: int): int
    requires n >= 1
  {
    match cfg.strategy
    case FibonacciStrategy => Fib(n) * cfg.base
    case Fixed => cfg.base
    case _ => Pow2(n - 1) * cfg.base
  }

  /** The delay before attempt `n` in the source's arithmetic. */
  function Delay(cfg: Config, n: int): int
    requires n >= 1
  {
    Clamp(Wrap(Ideal(cfg, n)), cfg.maxDelay)
  }

  /** As computed: shift, multiply, clamp. A negative shift count panics, so there is no delay below attempt 1. */
  method ComputeBackoff(cfg: Config, n: int) returns (delay: int)
    requires n >= 1 && Fits(n) && Fits(cfg.base)
    ensures delay == Delay(cfg, n)
  {
    match cfg.strategy
    case FibonacciStrategy =>
      var fib := Fibonacci(n);
      WrapMul(Fib(n), cfg.base);
      delay := Wrap(fib * cfg.base);
      if delay > cfg.maxDelay { delay := cfg.maxDelay; }
    case Fixed =>
      WrapFits(cfg.base);
      if cfg.base > cfg.maxDelay { return cfg.maxDelay; }
      delay := cfg.base;
    case _ =>
      ShiftIsWrap(n - 1);
      WrapMul(Pow2(n - 1), cfg.base);
      delay := Wrap(ShiftOne(n - 1) * cfg.base);
      if delay > cfg.maxDelay { delay := cfg.maxDelay; }
  }

  /** While the product fits, the delay is the mathematical one, capped. */
  lemma ExactWhileFits(cfg: Config, n: int)
    requires n >= 1 && Fits(Ideal(cfg, n))
    ensures Delay(cfg, n) == Clamp(Ideal(cfg, n), cfg.maxDelay)
  {
    WrapFits(Ideal(cfg, n));
  }

  /** A fixed delay is the base or the cap, whichever is smaller, and an unknown strategy backs off exponentially. */
  lemma OtherStrategies(base: int, maxDelay: int, n: int)
    requires n >= 1 && Fits(base)
    ensures var d := Delay(Config(Fixed, base, maxDelay), n); d == base || d == maxDelay
    ensures Delay(Config(Fixed, base, maxDelay), n) <= base && Delay(Config(Fixed, base, maxDelay), n) <= maxDelay
    ensures Delay(Config(Unknown, base, maxDelay), n) == Delay(Config(Exponential, base, maxDelay), n)
  {
    WrapFits(base);
  }

  lemma {:induction false} Pow2Grows(m: nat, n: nat)
    requires m <= n
    ensures Pow2(m) <= Pow2(n)
    decreases n - m
  {
    if m < n { Pow2Grows(m + 1, n); }
  }

  lemma {:induction false} FibGrows(m: nat, n: nat)
    requires m <= n
    ensures Fib(m) <= Fib(n)
    decreases n - m
  {
    if m < n { FibGrows(m + 1, n); }
  }

  lemma IdealGrows(cfg: Config, m: int, n: int)
    requires 1 <= m <= n && cfg.base >= 0
    ensures Ideal(cfg, m) <= Ideal(cfg, n)
    ensures Ideal(cfg, m) >= 0
  {
    Pow2Grows(m - 1, n - 1);
    FibGrows(m, n);
    MulGrows(Pow2(m - 1), Pow2(n - 1), cfg.base);
    MulGrows(Fib(m), Fib(n), cfg.base);
  }

  lemma MulGrows(a: nat, b: nat, c: nat)
    requires a <= b
    ensures 0 <= a * c <= b * c
  {}

  /** Later attempts never wait less, and no delay is negative, as long as the later product fits. */
  lemma DelayGrowsWhileFits(cfg: Config, m: int, n: int)
    requires 1 <= m <= n && cfg.base >= 0 && cfg.maxDelay >= 0 && Fits(Ideal(cfg, n))
    ensures 0 <= Delay(cfg, m) <= Delay(cfg, n) <= cfg.maxDelay
  {
    IdealGrows(cfg, m, n);
    ExactWhileFits(cfg, m);
    ExactWhileFits(cfg, n);
  }

  // ---------------------------------------------------------------- the built-in configurations

  lemma DefaultFits(n: int)
    requires n >= 1
    ensures Fits(Ideal(DEFAULT_BACKOFF, n)) <==> n <= 33
  {
    Pow2Values();
    if n <= 33 {
      IdealGrows(DEFAULT_BACKOFF, n, 33);
    } else {
      IdealGrows(DEFAULT_BACKOFF, 34, n);
    }
  }

  /** The default delays: 2s, 4s, ... doubling up to attempt 16, then a day as long as the product fits. */
  lemma DefaultDelays(n: int)
    requires 1 <= n <= 33
    ensures n == 1 ==> Delay(DEFAULT_BACKOFF, n) == 2_000_000_000
    ensures 2 <= n <= 16 ==> Delay(DEFAULT_BACKOFF, n) == 2 * Delay(DEFAULT_BACKOFF, n - 1)
    ensures n >= 17 ==> Delay(DEFAULT_BACKOFF, n) == 86_400_000_000_000
  {
    hide Pow2, Fib;
    DefaultFits(n);
    ExactWhileFits(DEFAULT_BACKOFF, n);
    Pow2Below17();
    if n <= 16 {
      IdealGrows(DEFAULT_BACKOFF, n, 16);
      if n > 1 {
        DefaultFits(n - 1);
        ExactWhileFits(DEFAULT_BACKOFF, n - 1);
        IdealGrows(DEFAULT_BACKOFF, n - 1, 16);
        Pow2Doubles(n - 2);
      }
    } else {
      IdealGrows(DEFAULT_BACKOFF, 17, n);
    }
  }

  lemma Pow2Below17()
    ensures Pow2(0) == 1 && Pow2(15) == 32768 && Pow2(16) == 65536
  {
    Pow2Small();
    Pow2Adds(4, 4);
    Pow2Adds(8, 8);
    assert Pow2(16) == 2 * Pow2(15);
  }

  lemma Pow2Doubles(k: nat)
    ensures Pow2(k + 1) == 2 * Pow2(k)
  {}

  /** The Fibonacci delays: 1s, 1s, 2s, ... up to attempt 25, then a day as long as the product fits. */
  lemma FibonacciDelays(n: int)
    requires 1 <= n <= 49
    ensures n <= 2 ==> Delay(FIBONACCI_BACKOFF, n) == 1_000_000_000
    ensures 3 <= n <= 25 ==>
              Delay(FIBONACCI_BACKOFF, n) == Delay(FIBONACCI_BACKOFF, n - 1) + Delay(FIBONACCI_BACKOFF, n - 2)
    ensures n >= 26 ==> Delay(FIBONACCI_BACKOFF, n) == 86_400_000_000_000
  {
    hide Pow2, Fib;
    FibAround24();
    FibStep(24);
    if n <= 25 {
      FibonacciExact(n);
      FibStep(1);
      FibStep(0);
      if n >= 3 {
        FibonacciExact(n - 1);
        FibonacciExact(n - 2);
        FibStep(n - 2);
      }
    } else {
      FibonacciFits(n);
      ExactWhileFits(FIBONACCI_BACKOFF, n);
      IdealGrows(FIBONACCI_BACKOFF, 26, n);
    }
  }

  lemma FibonacciExact(n: int)
    requires 1 <= n <= 25
    ensures Delay(FIBONACCI_BACKOFF, n) == Fib(n) * SECOND
  {
    hide Pow2, Fib;
    FibonacciFits(n);
    ExactWhileFits(FIBONACCI_BACKOFF, n);
    FibAround24();
    IdealGrows(FIBONACCI_BACKOFF, n, 25);
  }

  lemma FibonacciFits(n: int)
    requires n >= 1
    ensures Fits(Ideal(FIBONACCI_BACKOFF, n)) <==> n <= 49
  {
    FibValues();
    if n <= 49 {
      IdealGrows(FIBONACCI_BACKOFF, n, 49);
    } else {
      IdealGrows(FIBONACCI_BACKOFF, 50, n);
    }
  }

  /** The first attempt past the limit would be scheduled in the past. */
  lemma FirstWrappedDelays()
    ensures Delay(DEFAULT_BACKOFF, 34) == -1266874889709551616
    ensures Delay(FIBONACCI_BACKOFF, 50) == -5860475048709551616
  {
    Pow2Values();
    FibValues();
  }

  /** Attempts whose wrapped product happens to exceed the cap. */
  const STILL_CAPPED: set<int> := {37, 41, 42, 45, 47, 50, 51, 53}

  /** 2s is a multiple of 2^10 ns, so from attempt 55 on nothing is left of the product. */
  lemma DefaultVanishes(n: int)
    requires n >= 55
    ensures Delay(DEFAULT_BACKOFF, n) == 0
  {
    hide Pow2, Wrap;
    Pow2Adds(n - 55, 54);
    Pow2Values();
    var p := Pow2(n - 55);
    Regroup(p);
    WrapPeriod(0, p * 1953125);
    WrapFits(0);
  }

  lemma Regroup(p: int)
    ensures p * 0x40_0000_0000_0000 * (2 * SECOND) == 0 + (p * 1953125) * TWO64
  {}

  /** The wrapped products for attempts 34 to 54. */
  const WRAPPED: seq<int> := [
    -1266874889709551616, -2533749779419103232, -5067499558838206464, 8311744956033138688,
    -1823254161643274240, -3646508323286548480, -7293016646573096960, 3860710780563357696,
    7721421561126715392, -3003900951456120832, -6007801902912241664, 6431140267885068288,
    -5584463537939415040, 7277816997830721536, -3891110078048108544, -7782220156096217088,
    2882303761517117440, 5764607523034234880, -6917529027641081856, 4611686018427387904,
    -9223372036854775808]

  lemma WrappedDoubles(k: nat)
    requires k < 20
    ensures Wrap(2 * WRAPPED[k]) == WRAPPED[k + 1]
  {}

  lemma {:induction false} DefaultWraps(n: int)
    requires 34 <= n <= 54
    ensures Wrap(Ideal(DEFAULT_BACKOFF, n)) == WRAPPED[n - 34]
  {
    if n == 34 {
      Pow2Values();
    } else {
      DefaultWraps(n - 1);
      assert Ideal(DEFAULT_BACKOFF, n) == Ideal(DEFAULT_BACKOFF, n - 1) * 2;
      WrapMul(Ideal(DEFAULT_BACKOFF, n - 1), 2);
      WrappedDoubles(n - 35);
    }
  }

  /** Exactly which attempts the default backoff delays as intended. */
  lemma DefaultIsRightIff(n: int)
    requires n >= 1
    ensures Delay(DEFAULT_BACKOFF, n) == Clamp(Ideal(DEFAULT_BACKOFF, n), DAY) <==> n <= 33 || n in STILL_CAPPED
  {
    hide Pow2, Ideal, Delay, Clamp;
    if n <= 33 {
      DefaultFits(n);
      ExactWhileFits(DEFAULT_BACKOFF, n);
    } else {
      DefaultExceedsDay(n);
      DefaultAfterLimit(n);
    }
  }

  /** Past the limit the intended delay is the cap. */
  lemma DefaultExceedsDay(n: int)
    requires n >= 34
    ensures Clamp(Ideal(DEFAULT_BACKOFF, n), DAY) == DAY
  {
    hide Pow2;
    IdealGrows(DEFAULT_BACKOFF, 34, n);
    Pow2Values();
  }

  lemma DefaultAfterLimit(n: int)
    requires n >= 34
    ensures Delay(DEFAULT_BACKOFF, n) == DAY <==> n in STILL_CAPPED
  {
    hide Pow2, Ideal, Wrap;
    if n <= 54 { DefaultWraps(n); } else { DefaultVanishes(n); }
  }
}
