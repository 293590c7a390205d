/** The retry wait: what the int64 computation yields, and when it is the intended doubling. */
module TrackerBackoff {
  import opened Common
  import opened TrackerSpec
  import opened TrackerRuns
  import opened TrackerInvariant
  import opened TrackerCopies
  import opened TrackerAttempts

  /** The intended wait, without machine arithmetic. */
  function Intended(cfg: Config, retries: nat): Time {
    Min(Pow2(retries) * (500 * MILLISECOND), cfg.backoffMax)
  }

  lemma {:induction false} Pow2Monotone(m: nat, n: nat)
    requires m <= n
    ensures 1 <= Pow2(m) <= Pow2(n)
    decreases n
  {
    if m < n {
      Pow2Monotone(m, n - 1);
    } else if n > 0 {
      Pow2Monotone(m - 1, n - 1);
    }
  }

  lemma Pow2Values()
    ensures Pow2(34) == 0x4_0000_0000 && Pow2(35) == 0x8_0000_0000 && Pow2(62) == 0x4000_0000_0000_0000
  {
    assert Pow2(8) == 0x100;
    assert Pow2(16) == 0x1_0000;
    assert Pow2(24) == 0x100_0000;
    assert Pow2(32) == 0x1_0000_0000;
    assert Pow2(40) == 0x100_0000_0000;
    assert Pow2(48) == 0x1_0000_0000_0000;
    assert Pow2(56) == 0x100_0000_0000_0000;
  }

  lemma WrapIsIdentity(x: int)
    requires 0 <= x < TWO63
    ensures Wrap64(x) == x
  {
  }

  lemma WrapInRange(x: int)
    ensures -TWO63 <= Wrap64(x) < TWO63
  {
  }

  lemma SmallShift(n: nat)
    requires n <= 34
    ensures Shl1(n) == Pow2(n) <= 0x4_0000_0000
  {
    Pow2Values();
    Pow2Monotone(n, 34);
    WrapIsIdentity(Pow2(n));
  }

  lemma SmallProduct(x: int)
    requires 1 <= x <= 0x4_0000_0000
    ensures Wrap64(x * (500 * MILLISECOND)) == x * (500 * MILLISECOND)
  {
    WrapIsIdentity(x * (500 * MILLISECOND));
  }

  lemma LargeProduct(n: nat)
    requires n >= 35
    ensures Pow2(n) * (500 * MILLISECOND) >= TWO63
  {
    Pow2Values();
    Pow2Monotone(35, n);
  }

  /** The int64 product is the true product exactly up to 34 retries. */
  lemma ProductExactIff(n: nat)
    ensures Wrap64(Shl1(n) * (500 * MILLISECOND)) == Pow2(n) * (500 * MILLISECOND) <==> n <= 34
  {
    if n <= 34 {
      SmallShift(n);
      Pow2Monotone(n, n);
      SmallProduct(Pow2(n));
    } else {
      LargeProduct(n);
      WrapInRange(Shl1(n) * (500 * MILLISECOND));
    }
  }

  /**
   The wait is the intended one exactly when there is no overflow, or when the
   overflowed product happens to be at least the cap.
   */
  lemma BackoffExactIff(cfg: Config, n: nat)
    requires cfg.backoffMax < TWO63
    ensures Backoff(cfg, n) == Intended(cfg, n) <==>
      n <= 34 || Wrap64(Shl1(n) * (500 * MILLISECOND)) >= cfg.backoffMax
  {
    ProductExactIff(n);
    if n > 34 {
      LargeProduct(n);
    }
  }

  /** At 35 retries the product is negative: the gap is due again at once, whatever the cap. */
  lemma OverflowRetriesAtOnce(cfg: Config)
    requires cfg.backoffMax >= 0
    ensures Backoff(cfg, 35) < 0
  {
    Pow2Values();
    assert Shl1(35) == 0x8_0000_0000;
  }

  lemma HighPowers()
    ensures Pow2(56) == 0x100_0000_0000_0000 && Pow2(57) == 0x200_0000_0000_0000 && Pow2(58) == 0x400_0000_0000_0000
    ensures Pow2(59) == 0x800_0000_0000_0000 && Pow2(60) == 0x1000_0000_0000_0000 && Pow2(61) == 0x2000_0000_0000_0000
    ensures Pow2(62) == 0x4000_0000_0000_0000 && Pow2(63) == 0x8000_0000_0000_0000
  {
    Pow2Values();
  }

  lemma WrapMultiple(k: int)
    ensures Wrap64(k * TWO64) == 0
  {
  }

  /** From 56 on the shift leaves nothing below bit 56. */
  lemma HighShift(n: nat) returns (k: int)
    requires n >= 56
    ensures Shl1(n) == k * 0x100_0000_0000_0000
  {
    HighPowers();
    k := if n == 56 then 1 else if n == 57 then 2 else if n == 58 then 4 else if n == 59 then 8
         else if n == 60 then 16 else if n == 61 then 32 else if n == 62 then 64 else if n == 63 then -128 else 0;
  }

  /** From 56 retries on nothing is left of the product: the wait is zero for good. */
  lemma NoWaitFrom56(cfg: Config, n: nat)
    requires n >= 56 && cfg.backoffMax >= 0
    ensures Backoff(cfg, n) == 0
  {
    var k := HighShift(n);
    assert Shl1(n) * (500 * MILLISECOND) == (k * 1953125) * TWO64;
    WrapMultiple(k * 1953125);
  }

  lemma BackoffIntended(cfg: Config, n: nat)
    requires n <= 34
    ensures Backoff(cfg, n) == Intended(cfg, n)
  {
    ProductExactIff(n);
  }

  lemma IntendedMonotone(cfg: Config, m: nat, n: nat)
    requires m <= n
    ensures Intended(cfg, m) <= Intended(cfg, n)
  {
    Pow2Monotone(m, n);
  }

  lemma BackoffMonotone(cfg: Config, m: nat, n: nat)
    requires m <= n <= 34
    ensures Backoff(cfg, m) <= Backoff(cfg, n)
  {
    BackoffIntended(cfg, m);
    BackoffIntended(cfg, n);
    IntendedMonotone(cfg, m, n);
  }

  /**
   In an orderly run with MaxRetries at most 34, every attempt that ends while its
   gap is pending computes the intended wait, and never a shorter one than before.
   */
  lemma OrderlyBackoff(cfg: Config, t0: Time, steps: seq<Step>, w: World, t: nat, id: GapId)
    requires w == Exec(cfg, Start(t0), steps) && OrderlyRun(cfg, Start(t0), steps, id)
    requires cfg.maxRetries <= 34 && Running(w.running, id, t) && GapAt(w.st, id).Some?
    ensures var k := GapAt(w.st, id).value.retries + 1;
      && k <= cfg.maxRetries
      && Backoff(cfg, k) == Intended(cfg, k)
      && forall j: nat :: j <= k ==> Backoff(cfg, j) <= Backoff(cfg, k)
  {
    OrderlyRunsDisciplined(cfg, t0, steps, id);
    EveryRunOk(cfg, t0, steps);
    HeldWaits(cfg, w, t, id);
  }

  lemma HeldWaits(cfg: Config, w: World, t: nat, id: GapId)
    requires Disciplined(cfg, w, id) && FlowsOk(cfg, w.st, w.clock)
    requires cfg.maxRetries <= 34 && Running(w.running, id, t) && GapAt(w.st, id).Some?
    ensures var k := GapAt(w.st, id).value.retries + 1;
      && k <= cfg.maxRetries
      && Backoff(cfg, k) == Intended(cfg, k)
      && forall j: nat :: j <= k ==> Backoff(cfg, j) <= Backoff(cfg, k)
  {
    HeldBelowMax(cfg, w, t, id);
    WaitsGrow(cfg, GapAt(w.st, id).value.retries + 1);
  }

  /** A gap with a copy in a goroutine's hands has a retry left. */
  lemma HeldBelowMax(cfg: Config, w: World, t: nat, id: GapId)
    requires Disciplined(cfg, w, id) && FlowsOk(cfg, w.st, w.clock)
    requires Running(w.running, id, t) && GapAt(w.st, id).Some?
    ensures GapAt(w.st, id).value.retries < cfg.maxRetries
  {
    var g := GapAt(w.st, id).value;
    assert GapOk(cfg, id.0, id.1, g, w.st.flows[id.0].lastSeqNum, w.st.flows[id.0].lastSeen);
    assert CopyOk(cfg, Some(g), HistoryOf(w, id), w.running[t].gap, w.running[t].sentTo.Some?);
  }

  lemma WaitsGrow(cfg: Config, k: nat)
    requires k <= 34
    ensures Backoff(cfg, k) == Intended(cfg, k) && forall j: nat :: j <= k ==> Backoff(cfg, j) <= Backoff(cfg, k)
  {
    BackoffIntended(cfg, k);
    forall j: nat | j <= k ensures Backoff(cfg, j) <= Backoff(cfg, k) {
      BackoffMonotone(cfg, j, k);
    }
  }
}
