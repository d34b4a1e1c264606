/** Retry arithmetic of the worker pool. */
module Backoff {
  import opened Types

  /** The per-type overrides; zero means "use the pool's". */
  datatype JobDef = JobDef(maxAttempts: int, backoffBase: Duration, backoffCap: Duration)

  const TWO_63 := 0x8000_0000_0000_0000
  const TWO_53 := 0x20_0000_0000_0000

  const DEFAULT_BASE := 30 * SECOND
  const DEFAULT_CAP := 3600 * SECOND

  function Pow2(n: nat): (p: nat)
    ensures p > 0
  {
    if n == 0 then 1 else 2 * Pow2(n - 1)
  }

  /** `math.Pow(2, n)` */
  function Pow(n: int): real { if n >= 0 then Pow2(n) as real else 1.0 / (Pow2(-n) as real) }

  /**
   Go's conversion of a float64 to an int64: the integer part when it fits. Otherwise the
   value is left to the implementation, here the parameter `wild`.
   */
  function ToInt64(x: real, wild: real -> int): int {
    if -(TWO_63 as real) <= x < TWO_63 as real
    then if x >= 0.0 then x.Floor else -(-x).Floor
    else wild(x)
  }

  /** `calcBackoff`; floats are exact reals, which they are for a base below 2^53. */
  function CalcBackoff(poolBase: Duration, poolCap: Duration, def: JobDef, attempt: int, wild: real -> int): Duration {
    Capped(if def.backoffBase > 0 then def.backoffBase else poolBase,
           if def.backoffCap > 0 then def.backoffCap else poolCap,
           attempt, wild)
  }

  function Capped(base: Duration, maxDelay: Duration, attempt: int, wild: real -> int): Duration {
    CapAt(ToInt64((base as real) * Pow(attempt - 1), wild), maxDelay)
  }

  function CapAt(d: Duration, maxDelay: Duration): Duration { if d > maxDelay then maxDelay else d }

  predicate IsRetryable(attempt: int, maxAttempts: int) {
    if maxAttempts < 0 then true else attempt < maxAttempts
  }

  // ------------------------------------------------------------------ the closed form

  predicate InRange(base: Duration, attempt: int)
    requires attempt >= 1
  {
    base * Pow2(attempt - 1) < TWO_63
  }

  /** The base and cap that hold for a type: its own where positive, else the pool's. */
  predicate Settings(poolBase: Duration, poolCap: Duration, def: JobDef, base: Duration, cap: Duration) {
    && (def.backoffBase > 0 ==> base == def.backoffBase) && (def.backoffBase <= 0 ==> base == poolBase)
    && (def.backoffCap > 0 ==> cap == def.backoffCap) && (def.backoffCap <= 0 ==> cap == poolCap)
  }

  /** A positive base that a float64 holds exactly, and a positive cap. */
  predicate Sound(base: Duration, cap: Duration) { 0 < base < TWO_53 && 0 < cap < TWO_63 }

  /** In range the delay is min(base * 2^(attempt-1), cap), on every platform. */
  lemma ClosedForm(poolBase: Duration, poolCap: Duration, def: JobDef, attempt: int, wild: real -> int)
    requires attempt >= 1
    ensures var cap := if def.backoffCap > 0 then def.backoffCap else poolCap;
            var delay := CalcBackoff(poolBase, poolCap, def, attempt, wild);
            && (def.backoffBase > 0 && Sound(def.backoffBase, cap) && InRange(def.backoffBase, attempt) ==>
                  delay == Min(def.backoffBase * Pow2(attempt - 1), cap))
            && (def.backoffBase <= 0 && Sound(poolBase, cap) && InRange(poolBase, attempt) ==>
                  delay == Min(poolBase * Pow2(attempt - 1), cap))
  {
    var base := if def.backoffBase > 0 then def.backoffBase else poolBase;
    var cap := if def.backoffCap > 0 then def.backoffCap else poolCap;
    if Sound(base, cap) && InRange(base, attempt) {
      FormInRange(base, cap, attempt, wild);
    }
  }

  lemma FormInRange(base: Duration, cap: Duration, attempt: int, wild: real -> int)
    requires attempt >= 1 && Sound(base, cap) && InRange(base, attempt)
    ensures Capped(base, cap, attempt, wild) == Min(base * Pow2(attempt - 1), cap)
  {
    var n := base * Pow2(attempt - 1);
    WholeProduct(base, Pow2(attempt - 1));
    WholeFits(n, wild);
    assert (base as real) * Pow(attempt - 1) == n as real;
  }

  lemma WholeProduct(a: nat, b: nat)
    ensures (a as real) * (b as real) == (a * b) as real && a * b >= 0
  {
  }

  lemma WholeFits(n: nat, wild: real -> int)
    requires n < TWO_63
    ensures ToInt64(n as real, wild) == n
  {
  }

  ghost predicate FormulaHolds(poolBase: Duration, poolCap: Duration, def: JobDef, base: Duration, cap: Duration,
                               attempt: int, wild: real -> int)
    requires attempt >= 1
  {
    CalcBackoff(poolBase, poolCap, def, attempt, wild) == Min(base * Pow2(attempt - 1), cap)
  }

  /** Out of range no platform-independent formula is left: that one holds for all exactly in range. */
  lemma ClosedFormExactlyInRange(poolBase: Duration, poolCap: Duration, def: JobDef, base: Duration, cap: Duration,
                                 attempt: int)
    requires attempt >= 1 && Settings(poolBase, poolCap, def, base, cap) && Sound(base, cap)
    ensures (forall wild: real -> int :: FormulaHolds(poolBase, poolCap, def, base, cap, attempt, wild))
            <==> InRange(base, attempt)
  {
    if InRange(base, attempt) {
      forall wild: real -> int ensures FormulaHolds(poolBase, poolCap, def, base, cap, attempt, wild) {
        FormInRange(base, cap, attempt, wild);
      }
    } else {
      var p := Pow2(attempt - 1);
      var zero: real -> int := x => 0;
      assert (base as real) * (p as real) == (base * p) as real;
      assert CalcBackoff(poolBase, poolCap, def, attempt, zero) == 0;
      assert !FormulaHolds(poolBase, poolCap, def, base, cap, attempt, zero);
    }
  }

  lemma {:induction false} Pow2Monotone(a: nat, b: nat)
    requires a <= b
    ensures 0 < Pow2(a) <= Pow2(b)
  {
    if a < b {
      Pow2Monotone(a, b - 1);
    } else if 0 < a {
      Pow2Monotone(a - 1, b - 1);
    }
  }

  /** In range: delays never shrink, never drop below min(base, cap), and stay at the cap once there. */
  lemma DelaysGrowToTheCap(poolBase: Duration, poolCap: Duration, def: JobDef, base: Duration, cap: Duration,
                           m: int, n: int, wild: real -> int)
    requires 1 <= m <= n && Settings(poolBase, poolCap, def, base, cap) && Sound(base, cap) && InRange(base, n)
    ensures var dm, dn := CalcBackoff(poolBase, poolCap, def, m, wild), CalcBackoff(poolBase, poolCap, def, n, wild);
            Min(base, cap) <= dm <= dn <= cap && (dm == cap ==> dn == cap)
  {
    var pm, pn := Pow2(m - 1), Pow2(n - 1);
    Pow2Monotone(m - 1, n - 1);
    MulMonotone(base, pm, pn);
    MulMonotone(base, 1, pm);
    FormInRange(base, cap, m, wild);
    FormInRange(base, cap, n, wild);
  }

  lemma MulMonotone(b: int, x: int, y: int)
    requires 0 <= b && x <= y
    ensures b * x <= b * y
  {
  }

  lemma DefaultRangeIs29Attempts(attempt: int)
    requires attempt >= 1
    ensures InRange(DEFAULT_BASE, attempt) <==> attempt <= 29
  {
    Pow2Of29();
    if attempt <= 29 {
      Pow2Monotone(attempt - 1, 28);
    } else {
      Pow2Monotone(29, attempt - 1);
    }
  }

  lemma Pow2Of29()
    ensures Pow2(28) == 0x1000_0000 && Pow2(29) == 0x2000_0000
  {
    Pow2Plus(7, 7);
    Pow2Plus(14, 14);
  }

  lemma {:induction false} Pow2Plus(a: nat, b: nat)
    ensures Pow2(a + b) == Pow2(a) * Pow2(b)
  {
    if b > 0 {
      Pow2Plus(a, b - 1);
      assert Pow2(a + b) == 2 * Pow2(a + b - 1);
    }
  }

  /**
   Where the conversion yields the least int64, the 30th default retry is due 292 years ago
   rather than an hour from now: "stays constant" holds on attempts 1 to 29 only.
   */
  lemma ThirtiethDelayMayBeNegative()
    ensures CalcBackoff(DEFAULT_BASE, DEFAULT_CAP, JobDef(3, 0, 0), 30, x => -TWO_63) == -TWO_63
  {
    Pow2Of29();
    assert ((DEFAULT_BASE as real) * (Pow2(29) as real)) == (DEFAULT_BASE * Pow2(29)) as real;
  }
}
