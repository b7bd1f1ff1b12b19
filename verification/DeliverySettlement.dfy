/** What the answer to an attempt comes to: whether the intent is settled or tried again,
    and when. */
module DeliverySettlement {
  import opened Basics
  import opened Wrappers
  import opened DeliveryTiming
  import opened DeliveryTables

  const EXPIRED: Resolution := Outcome(PermanentFailure(CredentialExpired))
  const EXHAUSTED: Resolution := Outcome(PermanentFailure(AttemptsExhausted))

  /** The seconds an answer asks to wait: what it states or hints at, and one otherwise. */
  ghost function AskedFor(r: Resolution): int {
    match r
    case Outcome(RetryableFailureAfter(_, after)) => after
    case Outcome(UncertainFailure(_, Some(hint))) => hint
    case _ => 1
  }

  /** The ruling on an answer, case by case. A confirmed delivery and a cancellation stand
      whatever the time. A credential that has expired overrides everything else. A provider
      call that used up the last attempt is final. Anything else waits for its delay, unless
      the credential would not live to see the end of it. */
  ghost function Ruling(a: Attempt, r: Resolution, now: int, entropy: nat, config: WorkerConfig): Settlement
    requires config.Valid()
  {
    var next := now + IdealDelay(config.retry, a.number, AskedFor(r), entropy);
    match r
    case Outcome(Delivered(_)) => Settlement(r, None)
    case Outcome(Cancelled) => Settlement(r, None)
    case Outcome(PermanentFailure(_)) => Settlement(if now < a.credentialExpiresAt then r else EXPIRED, None)
    case Outcome(_) =>
      if a.number >= config.retry.maxAttempts && now < a.credentialExpiresAt then Settlement(EXHAUSTED, None)
      else if next < a.credentialExpiresAt then Settlement(r, Some(next))
      else Settlement(EXPIRED, None)
    case BeforeInvocation(_) =>
      if next < a.credentialExpiresAt then Settlement(r, Some(next)) else Settlement(EXPIRED, None)
  }

  lemma DelayIsPositive(p: RetryPolicy, attemptNumber: int, after: int, entropy: nat)
    requires AcceptedRetry(p)
    ensures 1 <= IdealDelay(p, attemptNumber, after, entropy) <= WholeSeconds(p.max)
    ensures after <= 1 ==> IdealDelay(p, attemptNumber, after, entropy) <= IdealCap(p, attemptNumber)
    ensures RetryDelaySeconds(p, attemptNumber, Some(after), entropy) == IdealDelay(p, attemptNumber, after, entropy)
  {
    RetryDelayIsExact(p, attemptNumber, Some(after), entropy);
  }

  /** The settlement, which lets later checks override earlier ones, is that ruling. */
  lemma SettlesAsRuled(a: Attempt, r: Resolution, now: int, entropy: nat, config: WorkerConfig)
    requires config.Valid()
    ensures Settle(a, r, now, entropy, config) == Ruling(a, r, now, entropy, config)
  {
    DelayIsPositive(config.retry, a.number, AskedFor(r), entropy);
  }

  /** Every next attempt, by the answer that led to it: jittered below the doubling cap,
      and no earlier than the answer asked for, up to the maximum delay. */
  lemma NextAttemptIsExact(a: Attempt, r: Resolution, now: int, entropy: nat, config: WorkerConfig)
    requires config.Valid() && Settle(a, r, now, entropy, config).nextAttemptAt.Some?
    ensures IdealCap(config.retry, a.number) > 0
    ensures
      var delay := Settle(a, r, now, entropy, config).nextAttemptAt.value - now;
      var jittered := 1 + entropy % IdealCap(config.retry, a.number);
      var max := WholeSeconds(config.retry.max);
      match r
      case BeforeInvocation(_) => delay == jittered
      case Outcome(RetryableFailure(_)) => delay == jittered
      case Outcome(UncertainFailure(_, None)) => delay == jittered
      case Outcome(UncertainFailure(_, Some(hint))) => delay == Max(jittered, Min(Max(hint, 0), max))
      case Outcome(RetryableFailureAfter(_, after)) => delay == Max(jittered, Min(Max(after, 0), max))
      case Outcome(_) => false
  {
    CapIsIdeal(config.retry, a.number);
    SettlesAsRuled(a, r, now, entropy, config);
  }

  /** How an answer reads on the row it settles. */
  ghost predicate ReadsAs(row: Intent, r: Resolution, now: int) {
    match r
    case BeforeInvocation(failure) => row.status.RetryableFailed? && row.code == Some(PreInvocationResult(failure))
    case Outcome(Delivered(receipt)) =>
      row.status.DeliveredStatus? && row.code.None? && row.receipt == Some(receipt) && row.deliveredAt == Some(now)
    case Outcome(RetryableFailure(code)) => row.status.RetryableFailed? && row.code == Some(FailureResult(code))
    case Outcome(RetryableFailureAfter(code, _)) => row.status.RetryableFailed? && row.code == Some(FailureResult(code))
    case Outcome(UncertainFailure(code, _)) => row.status.RetryableFailed? && row.code == Some(FailureResult(code))
    case Outcome(PermanentFailure(code)) => row.status.PermanentFailed? && row.code == Some(FailureResult(code))
    case Outcome(Cancelled) => row.status.CancelledStatus? && row.code == Some(CredentialInactive)
  }

  /** What no settlement, claim or cancellation changes about an intent. */
  ghost predicate SameIntent(row: Intent, before: Intent) {
    && row.provider == before.provider && row.credential == before.credential
    && row.credentialExpiresAt == before.credentialExpiresAt && row.createdAt == before.createdAt
  }

  /** A cancelled row: no claim, no waiting time, no envelope. */
  ghost predicate IsCancelled(row: Intent, before: Intent, code: ResultCode, now: int) {
    && SameIntent(row, before) && row.attemptCount == before.attemptCount && row.updatedAt == now
    && row.status.CancelledStatus? && row.code == Some(code) && row.claim.None? && row.nextAttemptAt.None?
    && row.deliveredAt.None? && row.receipt.None? && !row.sealed
  }
}
