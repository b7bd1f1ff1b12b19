/** The tables of the credential-delivery protocol and the effect of each committed
    transaction on them.

    A transaction is one atomic step. Its clock readings, fresh identifiers, entropy and
    the rows other transactions have locked are parameters. */
module DeliveryTables {
  import opened Basics
  import opened Wrappers
  import opened DeliveryTiming

  type Uuid = nat

  /* ------------------------------ configuration ------------------------------- */

  datatype WorkerConfig = WorkerConfig(budget: AttemptBudget, retry: RetryPolicy) {
    ghost predicate Valid() {
      Accepted(budget) && AcceptedRetry(retry)
    }
  }

  /** The adapter configured in one process. `wellFormed` is the outcome of the
      syntactic checks on the generation name and the fingerprint. */
  datatype Gateway = Gateway(generation: string, fingerprint: string, enabled: bool, wellFormed: bool)

  /* ---------------------------------- outcomes -------------------------------- */

  datatype FailureCode =
    | LocalTransient
    | ProviderUnavailable
    | RecipientRejected
    | CredentialUnavailable
    | CredentialExpired
    | AttemptsExhausted

  datatype PreInvocationFailure = ProviderSuspended | PreparationTransient

  datatype ResultCode =
    | FailureResult(failure: FailureCode)
    | PreInvocationResult(preInvocation: PreInvocationFailure)
    | CredentialInactive
    | CancelReason(reason: string)

  datatype ProviderOutcome =
    | Delivered(receipt: string)
    | RetryableFailure(code: FailureCode)
    | RetryableFailureAfter(code: FailureCode, after: int)
    | UncertainFailure(code: FailureCode, hint: Option<int>)
    | PermanentFailure(code: FailureCode)
    | Cancelled

  /** How a claimed delivery ended: what the provider said, or why it was not called. */
  datatype Resolution =
    | Outcome(outcome: ProviderOutcome)
    | BeforeInvocation(failure: PreInvocationFailure)
  {
    function Status(): Status {
      match this
      case BeforeInvocation(_) => RetryableFailed
      case Outcome(Delivered(_)) => DeliveredStatus
      case Outcome(PermanentFailure(_)) => PermanentFailed
      case Outcome(Cancelled) => CancelledStatus
      case Outcome(_) => RetryableFailed
    }

    function Code(): Option<ResultCode> {
      match this
      case BeforeInvocation(failure) => Some(PreInvocationResult(failure))
      case Outcome(Delivered(_)) => None
      case Outcome(Cancelled) => Some(CredentialInactive)
      case Outcome(other) => Some(FailureResult(other.code))
    }

    function RetryAfter(): Option<int> {
      match this
      case BeforeInvocation(_) => Some(1)
      case Outcome(RetryableFailure(_)) => Some(1)
      case Outcome(RetryableFailureAfter(_, after)) => Some(after)
      case Outcome(UncertainFailure(_, hint)) => Some(if hint.Some? then hint.value else 1)
      case Outcome(_) => None
    }

    function Receipt(): Option<string> {
      if Outcome? && outcome.Delivered? then Some(outcome.receipt) else None
    }

    predicate IsRetryable() {
      Status().RetryableFailed?
    }

    predicate SaysUnavailable() {
      Outcome? && IsRetryable() && outcome.code == ProviderUnavailable
    }

    predicate IsUncertain() {
      Outcome? && outcome.UncertainFailure?
    }

    predicate PreservesAttemptNumber() {
      BeforeInvocation?
    }
  }

  /* ------------------------------------ rows ---------------------------------- */

  datatype Kind = Invite | Recovery | CommunityInvitation

  datatype Credential = Credential(kind: Kind, hash: string)

  datatype Status = Queued | Processing | RetryableFailed | DeliveredStatus | PermanentFailed | CancelledStatus

  predicate Terminal(status: Status) {
    status.DeliveredStatus? || status.PermanentFailed? || status.CancelledStatus?
  }

  datatype Provenance = Automatic | ExplicitRetry(actor: Uuid)

  /** The claim columns of an intent, which are set and cleared together. */
  datatype Lease = Lease(token: Uuid, expiresAt: int, source: Provenance)

  /** `sealed` tells whether the row still holds its credential envelope. */
  datatype Intent = Intent(
    provider: string,
    credential: Credential,
    credentialExpiresAt: int,
    createdAt: int,
    status: Status,
    attemptCount: int,
    code: Option<ResultCode>,
    nextAttemptAt: Option<int>,
    deliveredAt: Option<int>,
    receipt: Option<string>,
    claim: Option<Lease>,
    sealed: bool,
    updatedAt: int)

  datatype Fence = Fence(generation: string, startedAt: int, expiresAt: int)

  datatype Probe = Probe(token: Uuid, expiresAt: int)

  datatype Authority = Authority(
    fingerprint: string,
    activatedAt: int,
    lastBoundAt: int,
    circuitVersion: int,
    retiredAt: Option<int>,
    suspendedAt: Option<int>,
    observation: Option<Uuid>,
    probe: Option<Probe>)

  datatype Tables = Tables(
    intents: map<Uuid, Intent>,
    fences: map<Uuid, Fence>,
    authorities: map<string, Authority>,
    activeCredentials: set<Credential>)
  {
    predicate Active(generation: string) {
      generation in authorities && authorities[generation].retiredAt.None?
    }
  }

  /* --------------------------------- transactions ----------------------------- */

  datatype DeliveryError = Unavailable | Suspended | Continuity | ConstraintViolation | WorkerError

  datatype Transaction<+R> = Committed(tables: Tables, reply: R) | RolledBack(error: DeliveryError)

  datatype Operability = Operable | NotNow | NotOurs

  /** The share-locked look at the active authority row that guards enqueue, claim and preparation. */
  function OperabilityOf(t: Tables, g: Gateway): Operability {
    if !g.wellFormed then NotOurs
    else if !g.enabled then NotNow
    else if !t.Active(g.generation) || t.authorities[g.generation].fingerprint != g.fingerprint then NotOurs
    else if t.authorities[g.generation].suspendedAt.Some? then NotNow
    else Operable
  }

  function OperabilityError(o: Operability): DeliveryError {
    if o.NotNow? then Suspended else Continuity
  }

  /* enqueue and cancel */

  function NewIntent(provider: string, credential: Credential, credentialExpiresAt: int, now: int): Intent {
    Intent(provider, credential, credentialExpiresAt, now, Queued, 0, None, Some(now), None, None, None, true, now)
  }

  /** A credential hash is unique over all intents, finished ones included. */
  predicate HashTaken(t: Tables, hash: string) {
    exists id :: id in t.intents && t.intents[id].credential.hash == hash
  }

  function Enqueue(t: Tables, g: Gateway, id: Uuid, credential: Credential, credentialExpiresAt: int, now: int)
    : Transaction<()>
  {
    if !g.enabled then RolledBack(Unavailable)
    else if !OperabilityOf(t, g).Operable? then RolledBack(OperabilityError(OperabilityOf(t, g)))
    else if id in t.intents || HashTaken(t, credential.hash) || credentialExpiresAt <= now then
      RolledBack(ConstraintViolation)
    else
      var row := NewIntent(g.generation, credential, credentialExpiresAt, now);
      Committed(t.(intents := t.intents[id := row]), ())
  }

  function CancelledRow(row: Intent, code: ResultCode, now: int): Intent {
    row.(status := CancelledStatus, code := Some(code), nextAttemptAt := None, deliveredAt := None,
    receipt := None, claim := None, sealed := false, updatedAt := now)
  }

  /** Cancellation by credential hash reaches the intents of every kind. */
  predicate Cancels(row: Intent, credentialHash: string) {
    row.credential.hash == credentialHash && !Terminal(row.status)
  }

  function CancelByCredential(t: Tables, credentialHash: string, reason: string, now: int): Tables {
    t.(intents := map id | id in t.intents ::
      if Cancels(t.intents[id], credentialHash)
      then CancelledRow(t.intents[id], CancelReason(reason), now)
      else t.intents[id])
  }

  /** Subject erasure deletes intents outright; fences stay. */
  function Erase(t: Tables, ids: set<Uuid>): Tables {
    t.(intents := t.intents - ids)
  }

  /* claim */

  datatype ClaimTarget = NextDue | Exactly(id: Uuid, actor: Uuid, expectedAttemptCount: int)

  predicate Due(row: Intent, now: int) {
    match row.status
    case Queued => row.nextAttemptAt.Some? && row.nextAttemptAt.value <= now
    case RetryableFailed => row.nextAttemptAt.Some? && row.nextAttemptAt.value <= now
    case Processing => row.claim.Some? && row.claim.value.expiresAt <= now
    case _ => false
  }

  predicate Claimable(target: ClaimTarget, id: Uuid, row: Intent, generation: string, now: int) {
    && row.provider == generation
    && match target
       case NextDue => Due(row, now)
       case Exactly(wanted, _, expected) =>
         id == wanted && row.status.RetryableFailed? && row.attemptCount == expected
  }

  /** The selection order of the claim query. */
  predicate Before(t: Tables, a: Uuid, b: Uuid)
    requires a in t.intents && b in t.intents
  {
    t.intents[a].createdAt < t.intents[b].createdAt || (t.intents[a].createdAt == t.intents[b].createdAt && a <= b)
  }

  /** The claim query picks the first claimable row that no other transaction holds. */
  predicate Selects(t: Tables, target: ClaimTarget, generation: string, now: int, locked: set<Uuid>, id: Uuid) {
    && id in t.intents && id !in locked && Claimable(target, id, t.intents[id], generation, now)
    && forall other | other in t.intents && other !in locked
                      && Claimable(target, other, t.intents[other], generation, now) ::
         Before(t, id, other)
  }

  /** What a worker carries away from a committed claim. */
  datatype Attempt = Attempt(
    id: Uuid,
    token: Uuid,
    gateway: Gateway,
    effectDeadlineAt: int,
    credential: Credential,
    credentialExpiresAt: int,
    number: int,
    sealed: bool,
    source: Provenance,
    permitted: bool)

  datatype ClaimReply = Claimed(attempt: Attempt) | Reconciled | ProviderIsSuspended

  predicate KeepsAttemptNumber(row: Intent) {
    row.status.Processing? || (row.code.Some? && row.code.value.PreInvocationResult?)
  }

  function ProvenanceOf(target: ClaimTarget, row: Intent): Provenance {
    if row.status.Processing? && row.claim.Some? then row.claim.value.source
    else if target.Exactly? then ExplicitRetry(target.actor)
    else Automatic
  }

  function ClaimedRow(row: Intent, token: Uuid, source: Provenance, claimedAt: int, config: WorkerConfig): Intent {
    row.(status := Processing, code := None, nextAttemptAt := None, deliveredAt := None, receipt := None,
    claim := Some(Lease(token, config.budget.ClaimExpiresAt(claimedAt), source)),
    attemptCount := if KeepsAttemptNumber(row) || row.attemptCount >= config.retry.maxAttempts
                    then row.attemptCount else row.attemptCount + 1,
    updatedAt := claimedAt)
  }

  /** The claim of the selected row. `now` is the selection clock and `claimedAt` the
      later mutation clock. The schema's trigger writes the fence with the claim. */
  function Claim(t: Tables, g: Gateway, target: ClaimTarget, id: Uuid, token: Uuid,
                 now: int, claimedAt: int, config: WorkerConfig): Transaction<ClaimReply>
    requires id in t.intents
  {
    var row := t.intents[id];
    if row.credential !in t.activeCredentials then
      Committed(t.(intents := t.intents[id := CancelledRow(row, CredentialInactive, now)]), Reconciled)
    else if OperabilityOf(t, g).NotNow? then
      Committed(t, ProviderIsSuspended)
    else if OperabilityOf(t, g).NotOurs? then
      RolledBack(Continuity)
    else
      var source := ProvenanceOf(target, row);
      var claimed := ClaimedRow(row, token, source, claimedAt, config);
      var expiresAt := config.budget.ClaimExpiresAt(claimedAt);
      var deadline := config.budget.EffectDeadlineAt(expiresAt);
      var permitted := if KeepsAttemptNumber(row) then 1 <= row.attemptCount <= config.retry.maxAttempts
                       else row.attemptCount < config.retry.maxAttempts;
      if token in t.fences then RolledBack(ConstraintViolation)
      else if deadline <= claimedAt then RolledBack(WorkerError)
      else
        Committed(
          t.(intents := t.intents[id := claimed],
          fences := t.fences[token := Fence(row.provider, claimedAt, expiresAt)]),
          Claimed(Attempt(id, token, g, deadline, row.credential, row.credentialExpiresAt,
                          claimed.attemptCount, row.sealed, source, permitted)))
  }

  /* preparation */

  datatype Permission =
    | Permitted
    | ClaimLost
    | InactiveCredential
    | ExpiredCredential
    | SuspendedProvider
    | PreparationFailed

  predicate Holds(t: Tables, a: Attempt) {
    && a.id in t.intents && t.intents[a.id].status.Processing?
    && t.intents[a.id].claim.Some? && t.intents[a.id].claim.value.token == a.token
  }

  /** The last authority decision before the provider is called; it writes nothing. */
  function Revalidate(t: Tables, a: Attempt, now: int, config: WorkerConfig): Permission {
    if !Holds(t, a) then ClaimLost
    else if a.credential !in t.activeCredentials then InactiveCredential
    else if OperabilityOf(t, a.gateway).NotNow? then SuspendedProvider
    else if OperabilityOf(t, a.gateway).NotOurs? then PreparationFailed
    else
      var expiresAt := t.intents[a.id].claim.value.expiresAt;
      var deadline := config.budget.EffectDeadlineAt(expiresAt);
      if a.effectDeadlineAt != deadline then PreparationFailed
      else if deadline <= now || expiresAt <= now then ClaimLost
      else if a.credentialExpiresAt <= now then ExpiredCredential
      else Permitted
  }

  /** The resolution of an attempt that never reaches the provider, or None for one that
      does. `unsealed` tells whether the stored envelope could be opened. */
  function ResolutionWithoutCall(a: Attempt, permission: Permission, unsealed: bool): Option<Resolution> {
    if !a.permitted then Some(Outcome(PermanentFailure(AttemptsExhausted)))
    else match permission
      case InactiveCredential => Some(Outcome(Cancelled))
      case ExpiredCredential => Some(Outcome(PermanentFailure(CredentialExpired)))
      case SuspendedProvider => Some(BeforeInvocation(ProviderSuspended))
      case ClaimLost => Some(BeforeInvocation(PreparationTransient))
      case PreparationFailed => Some(BeforeInvocation(PreparationTransient))
      case Permitted =>
        if a.sealed && unsealed then None else Some(Outcome(PermanentFailure(CredentialUnavailable)))
  }

  /* finalization */

  datatype Settlement = Settlement(resolution: Resolution, nextAttemptAt: Option<int>)

  /** What a resolution becomes when the credential has expired, the attempts are used
      up, or the next attempt would fall past the credential's expiry. */
  function Settle(a: Attempt, r: Resolution, now: int, entropy: nat, config: WorkerConfig): Settlement {
    var expired :=
      if now >= a.credentialExpiresAt && !r.Status().CancelledStatus? && !r.Status().DeliveredStatus?
      then Outcome(PermanentFailure(CredentialExpired)) else r;
    var bounded :=
      if !r.PreservesAttemptNumber() && expired.IsRetryable() && a.number >= config.retry.maxAttempts
      then Outcome(PermanentFailure(AttemptsExhausted)) else expired;
    if bounded.RetryAfter().None? then Settlement(bounded, None)
    else
      var next := now + RetryDelaySeconds(config.retry, a.number, bounded.RetryAfter(), entropy);
      if next >= a.credentialExpiresAt
      then Settlement(Outcome(PermanentFailure(CredentialExpired)), None)
      else Settlement(bounded, Some(next))
  }

  function SettledRow(row: Intent, s: Settlement, now: int): Intent {
    row.(status := s.resolution.Status(), code := s.resolution.Code(), nextAttemptAt := s.nextAttemptAt,
    deliveredAt := if s.resolution.Status().DeliveredStatus? then Some(now) else None,
    receipt := s.resolution.Receipt(), claim := None,
    sealed := row.sealed && !s.resolution.Status().CancelledStatus?, updatedAt := now)
  }

  /** The compare-and-set on the claim token; a credential revoked meanwhile wins. */
  function Resolve(t: Tables, a: Attempt, s: Settlement, now: int): Tables {
    if !Holds(t, a) then t
    else if a.credential in t.activeCredentials then
      t.(intents := t.intents[a.id := SettledRow(t.intents[a.id], s, now)])
    else
      t.(intents := t.intents[a.id := CancelledRow(t.intents[a.id], CredentialInactive, now)])
  }

  function SuspendedRow(row: Authority, observation: Uuid, now: int): Authority {
    row.(circuitVersion := row.circuitVersion + 1,
    suspendedAt := Some(if row.suspendedAt.Some? then Max(row.suspendedAt.value, now) else now),
    observation := if row.suspendedAt.None? || row.suspendedAt.value <= now then Some(observation) else row.observation,
    probe := None)
  }

  predicate OwnsAuthority(t: Tables, g: Gateway) {
    t.Active(g.generation) && t.authorities[g.generation].fingerprint == g.fingerprint
  }

  /** None when the observation no longer matches the active configured generation. */
  function RecordUnavailable(t: Tables, g: Gateway, observation: Uuid, now: int): Option<Tables> {
    if !g.wellFormed || !OwnsAuthority(t, g) then None
    else
      var row := SuspendedRow(t.authorities[g.generation], observation, now);
      Some(t.(authorities := t.authorities[g.generation := row]))
  }

  const FENCE_GC_BATCH := 1_000

  predicate Expired(f: Fence, now: int) {
    f.expiresAt <= now
  }

  predicate ExpiresBefore(fences: map<Uuid, Fence>, a: Uuid, b: Uuid)
    requires a in fences && b in fences
  {
    fences[a].expiresAt < fences[b].expiresAt || (fences[a].expiresAt == fences[b].expiresAt && a <= b)
  }

  predicate AllExpired(fences: map<Uuid, Fence>, now: int, batch: set<Uuid>) {
    forall token | token in batch :: token in fences && Expired(fences[token], now)
  }

  /** The oldest expired fences, up to a limit: one is left out only when the limit is
      reached and everything chosen is older. */
  predicate IsOldestExpired(fences: map<Uuid, Fence>, now: int, batch: set<Uuid>, limit: nat) {
    && AllExpired(fences, now, batch)
    && |batch| <= limit
    && forall other | other in fences && other !in batch && Expired(fences[other], now) ::
         |batch| == limit && forall token | token in batch && token in fences :: ExpiresBefore(fences, token, other)
  }

  /** The expired fences one finalization collects. */
  predicate IsCollected(fences: map<Uuid, Fence>, now: int, batch: set<Uuid>) {
    IsOldestExpired(fences, now, batch, FENCE_GC_BATCH)
  }

  function ReleasedFences(t: Tables, a: Attempt, uncertain: bool, batch: set<Uuid>): map<Uuid, Fence> {
    var own := if a.token in t.fences && t.fences[a.token].generation == a.gateway.generation && !uncertain
               then {a.token} else {};
    t.fences - (own + batch)
  }

  /** Whether the compare-and-set hit, and the settlement it wrote. */
  datatype FinalizeReply = ClaimWasLost | Resolved(row: Intent)

  function Finalize(t: Tables, a: Attempt, r: Resolution, invoked: bool, now: int, entropy: nat,
                    batch: set<Uuid>, config: WorkerConfig): Transaction<FinalizeReply>
  {
    var resolved := Resolve(t, a, Settle(a, r, now, entropy, config), now);
    var reply := if Holds(t, a) then Resolved(resolved.intents[a.id]) else ClaimWasLost;
    var observed := if invoked && r.SaysUnavailable() then RecordUnavailable(resolved, a.gateway, a.id, now)
                    else Some(resolved);
    if observed.None? then RolledBack(Continuity)
    else
      Committed(
        observed.value.(fences := ReleasedFences(observed.value, a, invoked && r.IsUncertain(), batch)),
        reply)
  }

  /* provider authority */

  function Retire(row: Authority, now: int): Authority {
    row.(retiredAt := Some(now), circuitVersion := row.circuitVersion + 1,
    suspendedAt := None, observation := None, probe := None)
  }

  function Rebound(row: Authority, now: int): Authority {
    var lapsed := row.probe.Some? && row.probe.value.expiresAt <= now;
    row.(lastBoundAt := Max(row.lastBoundAt, now),
    circuitVersion := row.circuitVersion + if lapsed then 1 else 0,
    probe := if lapsed then None else row.probe)
  }

  function LiveFences(t: Tables, now: int): map<Uuid, Fence> {
    map token | token in t.fences && !Expired(t.fences[token], now) :: t.fences[token]
  }

  predicate Drained(t: Tables) {
    forall id | id in t.intents :: Terminal(t.intents[id].status)
  }

  /** Startup binding: keep the active generation, or switch to a fresh one once every
      attempt has quiesced and the queue has drained. */
  function Bind(t: Tables, g: Gateway, now: int): Transaction<()> {
    if !g.wellFormed || !g.enabled then RolledBack(Continuity)
    else
      var swept := t.(fences := LiveFences(t, now));
      if t.Active(g.generation) then
        if t.authorities[g.generation].fingerprint != g.fingerprint then RolledBack(Continuity)
        else
          var row := Rebound(t.authorities[g.generation], now);
          Committed(swept.(authorities := t.authorities[g.generation := row]), ())
      else if |swept.fences| != 0 || !Drained(t) || g.generation in t.authorities then
        RolledBack(Continuity)
      else
        var retired := map h | h in t.authorities ::
          if t.Active(h) then Retire(t.authorities[h], now) else t.authorities[h];
        var entrant := Authority(g.fingerprint, now, now, 0, None, None, None, None);
        Committed(swept.(authorities := retired[g.generation := entrant]), ())
  }

  datatype ProbeReply = Acquired(circuitVersion: int) | Conflict | NotSuspended

  function LeaseProbe(t: Tables, g: Gateway, token: Uuid, now: int, config: WorkerConfig): Transaction<ProbeReply> {
    if !g.wellFormed then RolledBack(Continuity)
    else if !g.enabled then RolledBack(Suspended)
    else if !OwnsAuthority(t, g) then RolledBack(Continuity)
    else
      var row := t.authorities[g.generation];
      if row.suspendedAt.None? then Committed(t, NotSuspended)
      else if row.probe.Some? && row.probe.value.expiresAt > now then Committed(t, Conflict)
      else
        var leased := row.(circuitVersion := row.circuitVersion + 1,
                           probe := Some(Probe(token, now + config.budget.LeaseSeconds())));
        Committed(t.(authorities := t.authorities[g.generation := leased]), Acquired(leased.circuitVersion))
  }

  /** The probe's compare-and-set; only a success needs the lease to be unexpired. */
  function FinishProbe(t: Tables, g: Gateway, token: Uuid, version: int, available: bool, now: int): Option<Tables> {
    if !OwnsAuthority(t, g) then None
    else
      var row := t.authorities[g.generation];
      if || row.suspendedAt.None? || row.circuitVersion != version
         || row.probe.None? || row.probe.value.token != token
      then None
      else if available then
        if row.probe.value.expiresAt <= now then None
        else
          var cleared := row.(circuitVersion := version + 1, suspendedAt := None, observation := None, probe := None);
          Some(t.(authorities := t.authorities[g.generation := cleared]))
      else
        var failed := row.(circuitVersion := version + 1, suspendedAt := Some(Max(row.suspendedAt.value, now)),
                           observation := Some(token), probe := None);
        Some(t.(authorities := t.authorities[g.generation := failed]))
  }
}
