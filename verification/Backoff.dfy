/** The dispatcher's retry waits, `baseBackoff * (1 << (attempt - 1))`, in 64-bit durations. */
module Backoff {
  import opened Prelude

  function Pow2(k: nat): (p: nat)
    ensures p >= 1
  {
    if k == 0 then 1 else 2 * Pow2(k - 1)
  }

  lemma {:induction false} Pow2Grows(j: nat, k: nat)
    requires j <= k
    ensures Pow2(j) <= Pow2(k)
  {
    if j < k {
      Pow2Grows(j, k - 1);
    }
  }

  lemma {:induction false} Pow2Adds(j: nat, k: nat)
    ensures Pow2(j + k) == Pow2(j) * Pow2(k)
  {
    if k > 0 {
      Pow2Adds(j, k - 1);
      assert Pow2(j) * Pow2(k) == 2 * (Pow2(j) * Pow2(k - 1));
    }
  }

  lemma KnownPowers()
    ensures Pow2(39) == 0x80_0000_0000 && Pow2(40) == 0x100_0000_0000
    ensures Pow2(62) == 0x4000_0000_0000_0000 && Pow2(63) == MAX64 + 1 && Pow2(64) == TWO64
  {
    assert Pow2(7) == 128 && Pow2(8) == 256;
    Pow2Adds(8, 8);
    Pow2Adds(16, 16);
    Pow2Adds(32, 7);
    Pow2Adds(32, 8);
    Pow2Adds(16, 7);
    Pow2Adds(23, 40);
    assert Pow2(63) == 2 * Pow2(62);
  }

  /** Go's `1 << k` in an int64: the bit falls off the left end from k = 64 on. */
  function ShiftedOne(k: nat): int {
    if k >= 64 then 0 else Wrap64(Pow2(k))
  }

  /** The wait before attempt `attempt` (counted from 0; the first attempt has none). */
  function Wait(base: int, attempt: nat): int
    requires attempt >= 1
  {
    Wrap64(base * ShiftedOne(attempt - 1))
  }

  /** The wait the formula means, without a register's bound. */
  function IdealWait(base: int, attempt: nat): int
    requires attempt >= 1
  {
    base * Pow2(attempt - 1)
  }

  predicate InInt64(x: int) {
    -MAX64 - 1 <= x <= MAX64
  }

  lemma ScalingKeepsRange(base: int, p: nat, q: nat)
    requires p <= q && InInt64(base * q)
    ensures InInt64(base * p)
  {
    var more := base * (q - p);
    assert base * q == base * p + more;
    if base >= 0 {
      assert more >= 0 && base * p >= 0;
    } else {
      assert more <= 0 && base * p <= 0;
    }
  }

  lemma OnlyZeroFits(base: int, p: int)
    requires base != 0 && p > MAX64 + 1
    ensures !InInt64(base * p)
  {
    if base >= 1 {
      assert base * p == p + (base - 1) * p;
    } else {
      assert base * p == -p + (base + 1) * p;
    }
  }

  lemma OnlyMinusOneOrZeroFits(base: int)
    requires InInt64(base * (MAX64 + 1))
    ensures base == 0 || base == -1
  {
  }

  /** What the register holds after `1 << k`. */
  lemma Shifted(k: nat)
    ensures k <= 62 ==> ShiftedOne(k) == Pow2(k)
    ensures k == 63 ==> ShiftedOne(k) == -MAX64 - 1 && Pow2(k) == MAX64 + 1
    ensures k >= 64 ==> ShiftedOne(k) == 0 && Pow2(k) > MAX64 + 1
  {
    KnownPowers();
    if k <= 62 {
      Pow2Grows(k, 62);
    } else if k >= 64 {
      Pow2Grows(64, k);
    }
  }

  /** A wait that fits comes out right, even where the shifted one itself has wrapped or fallen off. */
  lemma FittingWaitIsExact(base: int, attempt: nat)
    requires attempt >= 1 && InInt64(IdealWait(base, attempt))
    ensures Wait(base, attempt) == IdealWait(base, attempt)
  {
    var k: nat := attempt - 1;
    Shifted(k);
    if k == 63 {
      OnlyMinusOneOrZeroFits(base);
    } else if k >= 64 && base != 0 {
      OnlyZeroFits(base, Pow2(k));
      assert false;
    }
  }

  lemma WrapDropsMultiples(x: int, q: int)
    ensures Wrap64(x + q * TWO64) == Wrap64(x)
  {
    assert (x + q * TWO64 + MAX64 + 1) % TWO64 == (x + MAX64 + 1) % TWO64;
  }

  /** Whatever is lost on the way, the wait is the intended one modulo 2^64. */
  lemma WaitIsIdealModulo(base: int, attempt: nat)
    requires attempt >= 1
    ensures Wait(base, attempt) == Wrap64(IdealWait(base, attempt))
  {
    var k: nat := attempt - 1;
    Shifted(k);
    if k == 63 {
      assert base * (-MAX64 - 1) == base * (MAX64 + 1) + (-base) * TWO64;
      WrapDropsMultiples(base * (MAX64 + 1), -base);
    } else if k >= 64 {
      Pow2Adds(k - 64, 64);
      KnownPowers();
      assert IdealWait(base, attempt) == 0 + (base * Pow2(k - 64)) * TWO64;
      WrapDropsMultiples(0, base * Pow2(k - 64));
    }
  }

  /**
   No wait of a notification with `maxAttempts` attempts wraps exactly when the last one fits, for every
   base the option accepts, zero and negative ones too.
   */
  lemma WaitsAreExactIff(base: int, maxAttempts: int)
    ensures (forall a: nat | 1 <= a < maxAttempts :: Wait(base, a) == IdealWait(base, a))
            <==> maxAttempts <= 1 || InInt64(base * Pow2(maxAttempts - 2))
  {
    if maxAttempts >= 2 {
      var last: nat := maxAttempts - 1;
      if InInt64(base * Pow2(maxAttempts - 2)) {
        forall a: nat | 1 <= a < maxAttempts
          ensures Wait(base, a) == IdealWait(base, a)
        {
          Pow2Grows(a - 1, last - 1);
          ScalingKeepsRange(base, Pow2(a - 1), Pow2(last - 1));
          FittingWaitIsExact(base, a);
        }
      } else {
        assert Wait(base, last) != IdealWait(base, last);
      }
    }
  }

  /** With the default base of 10 ms no wait wraps up to 41 attempts, and one does from 42 on. */
  lemma DefaultBaseAllows41(maxAttempts: int)
    ensures (forall a: nat | 1 <= a < maxAttempts :: Wait(10_000_000, a) == IdealWait(10_000_000, a))
            <==> maxAttempts <= 41
  {
    WaitsAreExactIff(10_000_000, maxAttempts);
    KnownPowers();
    if 2 <= maxAttempts <= 41 {
      Pow2Grows(maxAttempts - 2, 39);
    } else if maxAttempts >= 42 {
      Pow2Grows(40, maxAttempts - 2);
    }
  }

  function Sum(xs: seq<int>): int {
    if xs == [] then 0 else Sum(xs[..|xs| - 1]) + xs[|xs| - 1]
  }

  lemma DoublingSum(base: int, k: nat)
    ensures base * (Pow2(k) - 1) + base * Pow2(k) == base * (Pow2(k + 1) - 1)
    ensures base * Pow2(k + 1) == 2 * (base * Pow2(k))
  {
  }

  /** Waits that do not wrap strictly double and add up to base * (2^k - 1). */
  lemma {:induction false} IdealWaitsDouble(base: int, waits: seq<int>)
    requires forall k: nat | k < |waits| :: waits[k] == IdealWait(base, k + 1)
    ensures forall k | 0 < k < |waits| :: waits[k] == 2 * waits[k - 1]
    ensures Sum(waits) == base * (Pow2(|waits|) - 1)
  {
    if waits != [] {
      var last := |waits| - 1;
      IdealWaitsDouble(base, waits[..last]);
      DoublingSum(base, last);
      if last > 0 {
        DoublingSum(base, last - 1);
        assert waits[last] == 2 * waits[last - 1];
      }
    }
  }

  /** The retry loop when every send fails: which waits it makes, in order. */
  method RetryWaits(base: int, maxAttempts: int) returns (waits: seq<int>)
    ensures |waits| == if maxAttempts <= 1 then 0 else maxAttempts - 1
    ensures forall k | 0 <= k < |waits| :: waits[k] == Wait(base, k + 1)
    ensures maxAttempts <= 1 || InInt64(base * Pow2(maxAttempts - 2)) ==>
              && (forall k | 0 < k < |waits| :: waits[k] == 2 * waits[k - 1])
              && Sum(waits) == base * (Pow2(|waits|) - 1)
  {
    waits := [];
    var attempt := 0;
    while attempt < maxAttempts
      invariant 0 <= attempt
      invariant attempt > 0 ==> attempt <= maxAttempts
      invariant |waits| == if attempt <= 1 then 0 else attempt - 1
      invariant forall k | 0 <= k < |waits| :: waits[k] == Wait(base, k + 1)
    {
      if attempt > 0 {
        waits := waits + [Wait(base, attempt)];
      }
      attempt := attempt + 1;
    }
    WaitsDoubleWhenTheyFit(base, maxAttempts, waits);
  }

  lemma WaitsDoubleWhenTheyFit(base: int, maxAttempts: int, waits: seq<int>)
    requires |waits| == if maxAttempts <= 1 then 0 else maxAttempts - 1
    requires forall k | 0 <= k < |waits| :: waits[k] == Wait(base, k + 1)
    ensures maxAttempts <= 1 || InInt64(base * Pow2(maxAttempts - 2)) ==>
              && (forall k | 0 < k < |waits| :: waits[k] == 2 * waits[k - 1])
              && Sum(waits) == base * (Pow2(|waits|) - 1)
  {
    if maxAttempts >= 1 && (maxAttempts == 1 || InInt64(base * Pow2(maxAttempts - 2))) {
      WaitsAreExactIff(base, maxAttempts);
      IdealWaitsDouble(base, waits);
    }
  }
}
