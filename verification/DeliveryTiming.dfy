/** Durations, the per-attempt time budget and the retry delay of the
    credential-delivery worker.

    A duration or an instant is a number of nanoseconds, as in `std::time`.
    The database clock is read floored to whole seconds. */
module DeliveryTiming {
  import opened Basics
  import opened Wrappers

  type Nanos = nat

  const SECOND: Nanos := 1_000_000_000

  const MAX_U64: nat := 0xFFFF_FFFF_FFFF_FFFF

  function WholeSeconds(d: Nanos): nat {
    d / SECOND
  }

  /* ------------------------------ attempt budget ------------------------------ */

  datatype AttemptBudget = AttemptBudget(
    claimLease: Nanos,
    skewMargin: Nanos,
    providerTimeout: Nanos,
    databaseTimeout: Nanos)
  {
    /** Preparation, provider call and finalization, after the claim committed. */
    function TotalTimeout(): Nanos {
      providerTimeout + databaseTimeout + databaseTimeout
    }

    /** The same lifetime measured from the claim's own clock reading. */
    function LeaseCoverageTimeout(): Nanos {
      TotalTimeout() + databaseTimeout
    }

    function LeaseSeconds(): nat {
      WholeSeconds(claimLease)
    }

    function MarginSeconds(): nat {
      WholeSeconds(skewMargin)
    }

    /** When a claim whose clock reading was `claimedAt` may be recovered. */
    function ClaimExpiresAt(claimedAt: int): int {
      claimedAt + LeaseSeconds()
    }

    /** When the provider must have stopped acting on that claim. */
    function EffectDeadlineAt(claimExpiresAt: int): int {
      claimExpiresAt - MarginSeconds()
    }
  }

  datatype BudgetError = ProviderTimeoutOutOfRange | DatabaseTimeoutOutOfRange | MarginOutOfRange | LeaseTooShort

  function NewAttemptBudget(claimLease: Nanos, skewMargin: Nanos, providerTimeout: Nanos, databaseTimeout: Nanos)
    : Result<AttemptBudget, BudgetError>
  {
    var budget := AttemptBudget(claimLease, skewMargin, providerTimeout, databaseTimeout);
    if providerTimeout == 0 || providerTimeout > 120 * SECOND then
      Failure(ProviderTimeoutOutOfRange)
    else if databaseTimeout == 0 || databaseTimeout > 120 * SECOND then
      Failure(DatabaseTimeoutOutOfRange)
    else if skewMargin % SECOND != 0 || !(1 <= WholeSeconds(skewMargin) <= 60) then
      Failure(MarginOutOfRange)
    else if || claimLease % SECOND != 0
            || WholeSeconds(claimLease) < 2
            || claimLease > 300 * SECOND
            || claimLease <= budget.LeaseCoverageTimeout() + skewMargin + SECOND
    then
      Failure(LeaseTooShort)
    else
      Success(budget)
  }

  ghost predicate Accepted(b: AttemptBudget) {
    NewAttemptBudget(b.claimLease, b.skewMargin, b.providerTimeout, b.databaseTimeout) == Success(b)
  }

  /** The instants of one attempt: the claim's clock reading, then the ends of the
      claim commit, the preparation, the provider call and the finalization. */
  datatype Schedule = Schedule(clockRead: Nanos, claimed: Nanos, prepared: Nanos, answered: Nanos, finalized: Nanos)

  /** Every phase starts when the previous one ended and meets its own timeout. */
  ghost predicate BackToBack(b: AttemptBudget, s: Schedule) {
    && s.clockRead <= s.claimed <= s.clockRead + b.databaseTimeout
    && s.claimed <= s.prepared <= s.claimed + b.databaseTimeout
    && s.prepared <= s.answered <= s.prepared + b.providerTimeout
    && s.answered <= s.finalized <= s.answered + b.databaseTimeout
  }

  /** The finalization ends before the provider's deadline for this claim. */
  ghost predicate EndsBeforeDeadline(b: AttemptBudget, s: Schedule) {
    var claimedAt := WholeSeconds(s.clockRead);
    s.finalized < b.EffectDeadlineAt(b.ClaimExpiresAt(claimedAt)) * SECOND
  }

  /** An accepted budget covers the whole attempt: at every clock reading made up to
      the end of the finalization the provider deadline lies ahead and the claim,
      which outlives the deadline by the margin, cannot be recovered. */
  lemma LeaseCoversAttempt(b: AttemptBudget, s: Schedule, reading: Nanos)
    requires Accepted(b)
    requires BackToBack(b, s)
    requires reading <= s.finalized
    ensures EndsBeforeDeadline(b, s)
    ensures var expires := b.ClaimExpiresAt(WholeSeconds(s.clockRead));
            && WholeSeconds(reading) < b.EffectDeadlineAt(expires)
            && b.EffectDeadlineAt(expires) + 1 <= expires
            && s.finalized + b.skewMargin < expires * SECOND
  {
    assert s.finalized <= s.clockRead + b.LeaseCoverageTimeout();
    assert s.clockRead < WholeSeconds(s.clockRead) * SECOND + SECOND;
    assert b.claimLease == b.LeaseSeconds() * SECOND;
    assert b.skewMargin == b.MarginSeconds() * SECOND;
  }

  /** How sharp the lease condition is. For whole-second leases and margins, every
      back-to-back schedule meets the deadline exactly when the lease is at least the
      coverage, the margin and the one-second quantization reserve; the constructor
      asks for strictly more, so it refuses only the case of equality needlessly. */
  lemma LeaseConditionIsSharp(b: AttemptBudget)
    requires b.claimLease % SECOND == 0 && b.skewMargin % SECOND == 0
    ensures (forall s: Schedule :: BackToBack(b, s) ==> EndsBeforeDeadline(b, s))
            <==> b.claimLease >= b.LeaseCoverageTimeout() + b.skewMargin + SECOND
  {
    assert b.claimLease == b.LeaseSeconds() * SECOND;
    assert b.skewMargin == b.MarginSeconds() * SECOND;
    if b.claimLease >= b.LeaseCoverageTimeout() + b.skewMargin + SECOND {
      forall s: Schedule | BackToBack(b, s)
        ensures EndsBeforeDeadline(b, s)
      {
        assert s.clockRead < WholeSeconds(s.clockRead) * SECOND + SECOND;
      }
    } else {
      var slowest := SlowestSchedule(b);
      assert WholeSeconds(slowest.clockRead) == 0;
      assert BackToBack(b, slowest) && !EndsBeforeDeadline(b, slowest);
    }
  }

  /** Exactly which budgets are accepted: timeouts within two minutes, a whole-second margin
      within one, a whole-second lease of two seconds to five minutes, and every back-to-back
      schedule ending before the nanosecond that precedes the deadline. */
  lemma AcceptedExactly(b: AttemptBudget)
    ensures Accepted(b) <==>
              && 0 < b.providerTimeout <= 120 * SECOND && 0 < b.databaseTimeout <= 120 * SECOND
              && b.skewMargin % SECOND == 0 && SECOND <= b.skewMargin <= 60 * SECOND
              && b.claimLease % SECOND == 0 && 2 * SECOND <= b.claimLease <= 300 * SECOND
              && forall s: Schedule | BackToBack(b, s) ::
                   s.finalized + 1 < b.EffectDeadlineAt(b.ClaimExpiresAt(WholeSeconds(s.clockRead))) * SECOND
  {
    if b.skewMargin % SECOND == 0 && b.claimLease % SECOND == 0 {
      assert b.claimLease == b.LeaseSeconds() * SECOND;
      assert b.skewMargin == b.MarginSeconds() * SECOND;
      var slowest := SlowestSchedule(b);
      assert WholeSeconds(slowest.clockRead) == 0 && BackToBack(b, slowest);
      if b.claimLease > b.LeaseCoverageTimeout() + b.skewMargin + SECOND {
        forall s: Schedule | BackToBack(b, s)
          ensures s.finalized + 1 < b.EffectDeadlineAt(b.ClaimExpiresAt(WholeSeconds(s.clockRead))) * SECOND
        {
          assert s.clockRead < WholeSeconds(s.clockRead) * SECOND + SECOND;
        }
      }
    }
  }

  /** The clock is read just before a second ends and every phase uses its whole timeout. */
  ghost function SlowestSchedule(b: AttemptBudget): Schedule {
    var t0 := SECOND - 1;
    var t1 := t0 + b.databaseTimeout;
    var t2 := t1 + b.databaseTimeout;
    var t3 := t2 + b.providerTimeout;
    Schedule(t0, t1, t2, t3, t3 + b.databaseTimeout)
  }

  /* ------------------------------- retry delay -------------------------------- */

  datatype RetryPolicy = RetryPolicy(base: Nanos, max: Nanos, maxAttempts: int)

  datatype RetryError = BoundsOutOfRange | NotWholeSeconds | MaxAttemptsOutOfRange

  function NewRetryPolicy(base: Nanos, max: Nanos, maxAttempts: int): Result<RetryPolicy, RetryError> {
    if WholeSeconds(base) == 0 || max < base || max > 86_400 * SECOND then
      Failure(BoundsOutOfRange)
    else if base % SECOND != 0 || max % SECOND != 0 then
      Failure(NotWholeSeconds)
    else if !(1 <= maxAttempts <= 100) then
      Failure(MaxAttemptsOutOfRange)
    else
      Success(RetryPolicy(base, max, maxAttempts))
  }

  ghost predicate AcceptedRetry(p: RetryPolicy) {
    NewRetryPolicy(p.base, p.max, p.maxAttempts) == Success(p)
  }

  /** Exactly which policies are accepted: whole seconds from one up to a day, the base no
      longer than the maximum, and one to a hundred attempts. */
  lemma RetryAcceptedExactly(p: RetryPolicy)
    ensures AcceptedRetry(p) <==>
              && p.base % SECOND == 0 && p.max % SECOND == 0
              && SECOND <= p.base <= p.max <= 24 * 60 * 60 * SECOND && 1 <= p.maxAttempts <= 100
  {
  }

  function Pow2(n: nat): nat {
    if n == 0 then 1 else 2 * Pow2(n - 1)
  }

  /** `u64::saturating_mul`. */
  function SaturatingMul64(a: nat, b: nat): nat {
    Min(a * b, MAX_U64)
  }

  /** The `u64` exponential cap: the attempt number is clamped into a shift of 0..=62. */
  function ExponentialCap(p: RetryPolicy, attemptNumber: int): nat {
    var exponent := if attemptNumber - 1 < 0 then 0 else Min(attemptNumber - 1, 62);
    Min(SaturatingMul64(WholeSeconds(p.base), Pow2(exponent)), WholeSeconds(p.max))
  }

  function RetryDelaySeconds(p: RetryPolicy, attemptNumber: int, retryAfter: Option<int>, entropy: nat): int {
    var cap := Max(ExponentialCap(p, attemptNumber), 1);
    var jittered := 1 + entropy % cap;
    var hint := if retryAfter.Some? && retryAfter.value >= 0 then retryAfter.value else 0;
    Max(jittered, Min(hint, WholeSeconds(p.max)))
  }

  /** The cap as intended: doubling from the base without saturation or clamping. */
  ghost function IdealCap(p: RetryPolicy, attemptNumber: int): nat {
    Min(WholeSeconds(p.base) * Pow2(if attemptNumber < 1 then 0 else attemptNumber - 1), WholeSeconds(p.max))
  }

  /** The delay as intended when the answer asks to wait `after` seconds: full jitter below
      the cap, or what was asked for, up to the maximum, if that is longer. */
  ghost function IdealDelay(p: RetryPolicy, attemptNumber: int, after: int, entropy: nat): int
    requires AcceptedRetry(p)
  {
    CapIsIdeal(p, attemptNumber);
    Max(1 + entropy % IdealCap(p, attemptNumber), Min(Max(after, 0), WholeSeconds(p.max)))
  }

  lemma {:induction false} Pow2Monotone(a: nat, b: nat)
    requires a <= b
    ensures 1 <= Pow2(a) <= Pow2(b)
    decreases b
  {
    if b == 0 {
    } else if a == b {
      Pow2Monotone(0, b - 1);
    } else {
      Pow2Monotone(a, b - 1);
    }
  }

  lemma Pow2Of62()
    ensures Pow2(62) == 0x4000_0000_0000_0000
  {
    assert Pow2(10) == 1024;
    Pow2Add(10, 10);
    Pow2Add(20, 20);
    Pow2Add(40, 20);
    Pow2Add(60, 2);
  }

  lemma {:induction false} Pow2Add(a: nat, b: nat)
    ensures Pow2(a + b) == Pow2(a) * Pow2(b)
  {
    if b > 0 {
      Pow2Add(a, b - 1);
      assert Pow2(a + b) == 2 * (Pow2(a) * Pow2(b - 1));
    }
  }

  lemma ScaleMonotone(k: nat, a: nat, b: nat)
    requires a <= b
    ensures k * a <= k * b
  {
  }

  /** Neither the saturating product nor the clamp at 62 ever shows. */
  lemma CapIsIdeal(p: RetryPolicy, attemptNumber: int)
    requires AcceptedRetry(p)
    ensures ExponentialCap(p, attemptNumber) == IdealCap(p, attemptNumber)
    ensures 1 <= IdealCap(p, attemptNumber) <= WholeSeconds(p.max) <= 86_400
  {
    var base := WholeSeconds(p.base);
    var ideal := if attemptNumber < 1 then 0 else attemptNumber - 1;
    var clamped := if ideal <= 62 then ideal else 62;
    Pow2Monotone(0, clamped);
    Pow2Monotone(0, ideal);
    ScaleMonotone(base, 1, Pow2(clamped));
    ScaleMonotone(base, 1, Pow2(ideal));
    if ideal > 62 {
      Pow2Of62();
      Pow2Monotone(62, ideal);
      ScaleMonotone(base, Pow2(62), Pow2(ideal));
      ScaleMonotone(Pow2(62), 1, base);
    }
  }

  /** The delay over unbounded integers: full jitter below the doubling cap, floored by
      the provider's hint up to the maximum. It is never zero and never above the maximum. */
  lemma RetryDelayIsExact(p: RetryPolicy, attemptNumber: int, retryAfter: Option<int>, entropy: nat)
    requires AcceptedRetry(p)
    ensures var max := WholeSeconds(p.max);
            var hint := if retryAfter.Some? then Max(retryAfter.value, 0) else 0;
            var delay := RetryDelaySeconds(p, attemptNumber, retryAfter, entropy);
            && IdealCap(p, attemptNumber) > 0
            && delay == Max(1 + entropy % IdealCap(p, attemptNumber), Min(hint, max))
            && 1 <= delay <= max
            && Min(hint, max) <= delay
            && (Min(hint, max) <= 1 ==> delay <= IdealCap(p, attemptNumber))
  {
    CapIsIdeal(p, attemptNumber);
  }

  /** Later attempts never draw from a smaller interval. */
  lemma RetryCapMonotone(p: RetryPolicy, earlier: int, later: int)
    requires AcceptedRetry(p)
    requires earlier <= later
    ensures ExponentialCap(p, earlier) <= ExponentialCap(p, later)
  {
    CapIsIdeal(p, earlier);
    CapIsIdeal(p, later);
    var a := if earlier < 1 then 0 else earlier - 1;
    var b := if later < 1 then 0 else later - 1;
    Pow2Monotone(a, b);
    ScaleMonotone(WholeSeconds(p.base), Pow2(a), Pow2(b));
  }

  /** Full jitter: without a hint, the delay takes exactly the values 1 up to the cap. */
  lemma JitterIsFull(p: RetryPolicy, attemptNumber: int, delay: int)
    requires AcceptedRetry(p)
    ensures (exists entropy: nat :: RetryDelaySeconds(p, attemptNumber, None, entropy) == delay)
            <==> 1 <= delay <= ExponentialCap(p, attemptNumber)
  {
    CapIsIdeal(p, attemptNumber);
    if 1 <= delay <= ExponentialCap(p, attemptNumber) {
      SmallRemainder(delay - 1, ExponentialCap(p, attemptNumber));
      assert RetryDelaySeconds(p, attemptNumber, None, delay - 1) == delay;
    }
    if entropy: nat :| RetryDelaySeconds(p, attemptNumber, None, entropy) == delay {
      RetryDelayIsExact(p, attemptNumber, None, entropy);
    }
  }

  lemma SmallRemainder(x: nat, m: nat)
    requires x < m
    ensures x % m == x
  {
  }
}
