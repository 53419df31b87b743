/** The refresh loop's exponential backoff (internal/upstream/webshare/expander.go:270-352),
    in 64-bit signed nanoseconds with wrap-around. */
module Backoff {
  import opened Types

  const HARD_CAP: Duration := 30 * MINUTE
  /** The refresh interval of a pool block that names none. */
  const DEFAULT_REFRESH: Duration := 12 * HOUR
  const MAX_SHIFT: nat := 30
  const TWO_63: int := 0x8000_0000_0000_0000
  const TWO_64: int := 0x1_0000_0000_0000_0000

  /** What the configuration accepts as a periodic refresh interval. */
  predicate AcceptedRefresh(base: Duration) { MINUTE <= base < TWO_63 }

  predicate IsInt64(x: int) { -TWO_63 <= x < TWO_63 }

  /** Two's-complement wrap-around. */
  function Wrap(x: int): (r: int)
    ensures IsInt64(r)
    ensures IsInt64(x) ==> r == x
  {
    (x + TWO_63) % TWO_64 - TWO_63
  }

  function Pow2(n: nat): nat { if n == 0 then 1 else 2 * Pow2(n - 1) }

  /** Go's `/` on positive operands. */
  function BackoffCap(base: Duration): Duration {
    if base > HARD_CAP / 8 then HARD_CAP else Wrap(8 * base)
  }

  function BackoffInterval(consecutive: int, base: Duration, maxInterval: Duration): Duration {
    if consecutive <= 0 then base
    else
      var shift := if consecutive - 1 > MAX_SHIFT then MAX_SHIFT else consecutive - 1;
      var next := Wrap(base * Pow2(shift));
      if next <= 0 || next > maxInterval then maxInterval else next
  }

  function Smaller(a: int, b: int): int { if a < b then a else b }

  /** The documented delay: base, doubled per failure, never above 8 x base or 30 minutes. */
  function Documented(consecutive: nat, base: Duration): Duration
    requires consecutive >= 1
  {
    Smaller(base * Pow2(consecutive - 1), Smaller(8 * base, HARD_CAP))
  }

  /** The cap is min(8 x base, 30 min) and its product never overflows. */
  lemma CapIsMinimum(base: Duration)
    requires 0 < base < TWO_63
    ensures BackoffCap(base) == Smaller(8 * base, HARD_CAP) && HARD_CAP == 1_800_000_000_000
    ensures base <= HARD_CAP / 8 ==> IsInt64(8 * base)
  {
  }

  lemma {:induction false} Pow2Grows(m: nat, n: nat)
    requires m <= n
    ensures 1 <= Pow2(m) <= Pow2(n)
    decreases n
  {
    if m < n {
      Pow2Grows(m, n - 1);
    } else if n > 0 {
      Pow2Grows(n - 1, n - 1);
    }
  }

  lemma ScaledGrows(base: int, m: nat, n: nat)
    requires base > 0 && m <= n
    ensures base <= base * Pow2(m) <= base * Pow2(n)
  {
    Pow2Grows(m, n);
    Pow2Grows(0, m);
    Multiply(base, 1, Pow2(m));
    Multiply(base, Pow2(m), Pow2(n));
  }

  lemma Multiply(base: int, a: int, b: int)
    requires base > 0 && a <= b
    ensures base * a <= base * b
  {
    assert base * (b - a) >= 0;
  }

  lemma ThreeDoublings()
    ensures Pow2(0) == 1 && Pow2(1) == 2 && Pow2(2) == 4 && Pow2(3) == 8
  {
  }

  lemma {:induction false} Pow2Adds(m: nat, n: nat)
    ensures Pow2(m + n) == Pow2(m) * Pow2(n)
  {
    if m > 0 {
      Pow2Adds(m - 1, n);
    }
  }

  lemma ManyDoublings()
    ensures Pow2(16) == 0x1_0000 && Pow2(17) == 0x2_0000 && Pow2(18) == 0x4_0000
    ensures Pow2(19) == 0x8_0000 && Pow2(20) == 0x10_0000 && Pow2(21) == 0x20_0000
    ensures Pow2(22) == 0x40_0000 && Pow2(23) == 0x80_0000 && Pow2(24) == 0x100_0000
    ensures Pow2(25) == 0x200_0000 && Pow2(26) == 0x400_0000
  {
    ThreeDoublings();
    Pow2Adds(3, 3);
    Pow2Adds(6, 6);
    Pow2Adds(12, 3);
    assert Pow2(16) == 2 * Pow2(15) && Pow2(17) == 2 * Pow2(16) && Pow2(18) == 2 * Pow2(17);
    assert Pow2(19) == 2 * Pow2(18) && Pow2(20) == 2 * Pow2(19) && Pow2(21) == 2 * Pow2(20);
    assert Pow2(22) == 2 * Pow2(21) && Pow2(23) == 2 * Pow2(22) && Pow2(24) == 2 * Pow2(23);
    assert Pow2(25) == 2 * Pow2(24) && Pow2(26) == 2 * Pow2(25);
  }

  function Clamped(consecutive: nat): nat
    requires consecutive >= 1
  {
    if consecutive - 1 > MAX_SHIFT then MAX_SHIFT else consecutive - 1
  }

  /** The delay is the documented one exactly when the wrapped product is not mistaken for a
      short delay: either it did not overflow, or it is caught by the guard (non-positive or
      at least the cap). */
  lemma DelayIffNotMistaken(consecutive: nat, base: Duration)
    requires 0 < base < TWO_63 && consecutive >= 1
    ensures BackoffInterval(consecutive, base, BackoffCap(base)) == Documented(consecutive, base) <==>
      (base * Pow2(Clamped(consecutive)) < TWO_63
       || Wrap(base * Pow2(Clamped(consecutive))) <= 0
       || Wrap(base * Pow2(Clamped(consecutive))) >= BackoffCap(base))
  {
    var shift := Clamped(consecutive);
    var cap := BackoffCap(base);
    var product := base * Pow2(shift);
    CapIsMinimum(base);
    ThreeDoublings();
    ScaledGrows(base, 0, shift);
    ScaledGrows(base, shift, consecutive - 1);
    if shift == MAX_SHIFT {
      ScaledGrows(base, 3, shift);
    }
    assert HARD_CAP < TWO_63;
    if product < TWO_63 {
      assert Wrap(product) == product;
    }
  }

  /** For every interval of up to a day the first seventeen delays are as documented. */
  lemma EarlyDelaysAreSafe(consecutive: nat, base: Duration)
    requires 0 < base <= 24 * HOUR && 1 <= consecutive <= 17
    ensures BackoffInterval(consecutive, base, BackoffCap(base)) == Documented(consecutive, base)
  {
    ManyDoublings();
    ScaledGrows(base, consecutive - 1, 16);
    assert base * 0x1_0000 < TWO_63;
    DelayIffNotMistaken(consecutive, base);
  }

  /** The guard of `backoffInterval` catches the wrapped product. */
  predicate Caught(product: int, base: Duration) {
    Wrap(product) <= 0 || Wrap(product) >= BackoffCap(base)
  }

  lemma MiddleShiftsAreCaught(shift: nat)
    requires 18 <= shift <= 21
    ensures Caught(DEFAULT_REFRESH * Pow2(shift), DEFAULT_REFRESH)
  {
    ManyDoublings();
    if {
      case shift == 18 => assert Caught(43_200_000_000_000 * 0x4_0000, DEFAULT_REFRESH);
      case shift == 19 => assert Caught(43_200_000_000_000 * 0x8_0000, DEFAULT_REFRESH);
      case shift == 20 => assert Caught(43_200_000_000_000 * 0x10_0000, DEFAULT_REFRESH);
      case shift == 21 => assert Caught(43_200_000_000_000 * 0x20_0000, DEFAULT_REFRESH);
    }
  }

  lemma HigherShiftsAreCaught(shift: nat)
    requires 22 <= shift <= 25
    ensures Caught(DEFAULT_REFRESH * Pow2(shift), DEFAULT_REFRESH)
  {
    ManyDoublings();
    if {
      case shift == 22 => assert Caught(43_200_000_000_000 * 0x40_0000, DEFAULT_REFRESH);
      case shift == 23 => assert Caught(43_200_000_000_000 * 0x80_0000, DEFAULT_REFRESH);
      case shift == 24 => assert Caught(43_200_000_000_000 * 0x100_0000, DEFAULT_REFRESH);
      case shift == 25 => assert Caught(43_200_000_000_000 * 0x200_0000, DEFAULT_REFRESH);
    }
  }

  /** From shift 26 on the product is a multiple of 2^41 ns, about 36 minutes. */
  lemma LateShiftsAreCaught(shift: nat)
    requires 26 <= shift
    ensures Caught(DEFAULT_REFRESH * Pow2(shift), DEFAULT_REFRESH)
  {
    var rest := Pow2(shift - 26);
    ManyDoublings();
    Pow2Adds(26, shift - 26);
    assert DEFAULT_REFRESH * Pow2(shift) == 43_200_000_000_000 * (0x400_0000 * rest) == (1_318_359_375 * rest) * 0x200_0000_0000;
    CoarseWrap(1_318_359_375 * rest);
  }

  /** The default interval is as documented after any number of failures: from the 19th on
      the product overflows, but never to a short positive delay. */
  lemma DefaultIsSafe(consecutive: nat)
    requires consecutive >= 1
    ensures BackoffInterval(consecutive, DEFAULT_REFRESH, BackoffCap(DEFAULT_REFRESH)) == Documented(consecutive, DEFAULT_REFRESH)
  {
    var shift := Clamped(consecutive);
    if shift <= 17 {
      ManyDoublings();
      ScaledGrows(DEFAULT_REFRESH, shift, 17);
    } else if shift <= 21 {
      MiddleShiftsAreCaught(shift);
    } else if shift <= 25 {
      HigherShiftsAreCaught(shift);
    } else {
      LateShiftsAreCaught(shift);
    }
    DelayIffNotMistaken(consecutive, DEFAULT_REFRESH);
  }

  /** Wrapping keeps a multiple of 2^41 one. */
  lemma CoarseWrap(k: int)
    ensures Wrap(k * 0x200_0000_0000) <= 0 || Wrap(k * 0x200_0000_0000) >= 0x200_0000_0000
  {
    var q := (k * 0x200_0000_0000 + TWO_63) / TWO_64;
    assert Wrap(k * 0x200_0000_0000) == (k - q * 0x80_0000) * 0x200_0000_0000;
  }

  /** Without overflow the delay never shrinks and is constant from the fourth failure on. */
  lemma DelayIsMonotone(m: nat, n: nat, base: Duration)
    requires base > 0 && 1 <= m <= n && base * Pow2(Clamped(n)) < TWO_63
    ensures BackoffInterval(m, base, BackoffCap(base)) <= BackoffInterval(n, base, BackoffCap(base))
    ensures m >= 4 ==> BackoffInterval(m, base, BackoffCap(base)) == BackoffCap(base)
  {
    ScaledGrows(base, 0, Clamped(n));
    ScaledGrows(base, Clamped(m), Clamped(n));
    DelayIffNotMistaken(m, base);
    DelayIffNotMistaken(n, base);
    ScaledGrows(base, m - 1, n - 1);
    CapIsMinimum(base);
    ThreeDoublings();
    if m >= 4 {
      ScaledGrows(base, 3, m - 1);
    }
  }

  /** An accepted interval of 47279 s (13h7m59s) waits half an hour after its 24th failure and
      94.5 s after its 25th: the product wraps to a small positive number. */
  lemma OverflowShortensDelay()
    ensures var base := 47279 * SECOND;
      && AcceptedRefresh(base)
      && BackoffInterval(24, base, BackoffCap(base)) == HARD_CAP
      && BackoffInterval(25, base, BackoffCap(base)) == 94_489_280_512 < HARD_CAP
      && Documented(25, base) == HARD_CAP
  {
    ManyDoublings();
  }

  /** `RunRefresh`'s interval over a run of snapshot outcomes (`true` is a success). */
  method NextInterval(outcomes: seq<bool>, base: Duration) returns (interval: Duration, failures: nat)
    requires base > 0
    ensures failures <= |outcomes| && forall k :: |outcomes| - failures <= k < |outcomes| ==> !outcomes[k]
    ensures failures < |outcomes| ==> outcomes[|outcomes| - failures - 1]
    ensures interval == if failures == 0 then base else BackoffInterval(failures, base, BackoffCap(base))
  {
    var maxInterval := BackoffCap(base);
    interval := base;
    failures := 0;
    for k := 0 to |outcomes|
      invariant failures <= k && forall j :: k - failures <= j < k ==> !outcomes[j]
      invariant failures < k ==> outcomes[k - failures - 1]
      invariant interval == if failures == 0 then base else BackoffInterval(failures, base, maxInterval)
    {
      if outcomes[k] {
        failures := 0;
        interval := base;
      } else {
        failures := failures + 1;
        interval := BackoffInterval(failures, base, maxInterval);
      }
    }
  }
}
