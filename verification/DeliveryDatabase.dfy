/** The delivery transactions as they run: statement by statement on tables updated in
    place. Each is proved to have exactly the effect of its specification in
    `DeliveryTables`, which the protocol's theorems are about. */
module DeliveryDatabase {
  import opened Basics
  import opened Wrappers
  import opened DeliveryTiming
  import opened DeliveryTables
  import opened DeliverySettlement

  /* ---------------------------- what queries select --------------------------- */

  /** A nonempty set of rows has a first one in the claim query's order. */
  lemma {:induction false} FirstRow(t: Tables, ids: set<Uuid>) returns (first: Uuid)
    requires ids != {} && ids <= t.intents.Keys
    ensures first in ids && forall other | other in ids :: Before(t, first, other)
    decreases |ids|
  {
    var id :| id in ids;
    first := id;
    if ids - {id} != {} {
      var rest := FirstRow(t, ids - {id});
      first := if Before(t, id, rest) then id else rest;
      assert forall other | other in ids :: other == id || other in ids - {id};
    } else {
      assert ids == {id};
    }
  }

  lemma {:induction false} FirstFence(fences: map<Uuid, Fence>, tokens: set<Uuid>) returns (first: Uuid)
    requires tokens != {} && tokens <= fences.Keys
    ensures first in tokens && forall other | other in tokens :: ExpiresBefore(fences, first, other)
    decreases |tokens|
  {
    var token :| token in tokens;
    first := token;
    if tokens - {token} != {} {
      var rest := FirstFence(fences, tokens - {token});
      first := if ExpiresBefore(fences, token, rest) then token else rest;
      assert forall other | other in tokens :: other == token || other in tokens - {token};
    } else {
      assert tokens == {token};
    }
  }

  lemma {:induction false} OldestExpiredExists(fences: map<Uuid, Fence>, now: int, limit: nat)
    returns (batch: set<Uuid>)
    ensures IsOldestExpired(fences, now, batch, limit)
  {
    if limit == 0 {
      batch := {};
    } else {
      batch := OldestExpiredExists(fences, now, limit - 1);
      var rest := set token | token in fences && Expired(fences[token], now) && token !in batch;
      if rest != {} {
        var first := FirstFence(fences, rest);
        batch := batch + {first};
      } else {
        forall token | token in fences && Expired(fences[token], now)
          ensures token in batch
        {
          assert token !in rest;
        }
      }
    }
  }

  /** A finalization always has a batch to collect, and an empty one means that no fence
      has expired. */
  lemma CollectedBatchExists(fences: map<Uuid, Fence>, now: int)
    ensures exists batch :: IsCollected(fences, now, batch)
    ensures IsCollected(fences, now, {}) <==> forall token | token in fences :: !Expired(fences[token], now)
  {
    var batch := OldestExpiredExists(fences, now, FENCE_GC_BATCH);
    assert IsCollected(fences, now, batch);
  }

  /* -------------------------------- transactions ------------------------------ */

  /** The reply of a claim call: nothing to do, or what the claim transaction replied. */
  datatype ClaimResult = Empty | Selected(id: Uuid, tx: Result<ClaimReply, DeliveryError>)

  class Database {
    var intents: map<Uuid, Intent>
    var fences: map<Uuid, Fence>
    var authorities: map<string, Authority>
    var activeCredentials: set<Credential>

    function View(): Tables
      reads this
    {
      Tables(intents, fences, authorities, activeCredentials)
    }

    /** The unique index on unretired authority rows. */
    ghost predicate Valid()
      reads this`authorities
    {
      forall g, h | && g in authorities && h in authorities
                    && authorities[g].retiredAt.None? && authorities[h].retiredAt.None? ::
        g == h
    }

    constructor ()
      ensures Valid() && View() == Tables(map[], map[], map[], {})
    {
      intents, fences, authorities, activeCredentials := map[], map[], map[], {};
    }

    /** Look at the active authority row under a share lock. */
    method LockProviderAuthority(g: Gateway) returns (o: Operability)
      requires Valid()
      ensures o == OperabilityOf(View(), g)
    {
      if !g.wellFormed {
        return NotOurs;
      }
      if !g.enabled {
        return NotNow;
      }
      var active := set h | h in authorities && authorities[h].retiredAt.None?;
      if active == {} {
        assert g.generation !in active;
        return NotOurs;
      }
      var generation :| generation in active;
      if generation != g.generation {
        assert !View().Active(g.generation);
        return NotOurs;
      }
      if authorities[generation].fingerprint != g.fingerprint {
        return NotOurs;
      }
      if authorities[generation].suspendedAt.Some? {
        return NotNow;
      }
      return Operable;
    }

    method EnqueueIntent(g: Gateway, id: Uuid, credential: Credential, credentialExpiresAt: int, now: int)
      returns (result: Result<(), DeliveryError>)
      requires Valid()
      modifies this`intents
      ensures Valid()
      ensures match Enqueue(old(View()), g, id, credential, credentialExpiresAt, now)
              case Committed(tables, _) => result == Success(()) && View() == tables
              case RolledBack(error) => result == Failure(error) && View() == old(View())
    {
      if !g.enabled {
        return Failure(Unavailable);
      }
      var operability := LockProviderAuthority(g);
      if !operability.Operable? {
        return Failure(OperabilityError(operability));
      }
      if id in intents || credentialExpiresAt <= now
         || (exists other :: other in intents && intents[other].credential.hash == credential.hash)
      {
        return Failure(ConstraintViolation);
      }
      intents := intents[id := NewIntent(g.generation, credential, credentialExpiresAt, now)];
      return Success(());
    }

    method CancelIntents(credentialHash: string, reason: string, now: int) returns (cancelled: nat)
      requires Valid()
      modifies this`intents
      ensures Valid() && View() == CancelByCredential(old(View()), credentialHash, reason, now)
      ensures cancelled == |set id | id in old(intents) && Cancels(old(intents)[id], credentialHash)|
    {
      var matching := set id | id in intents && Cancels(intents[id], credentialHash);
      intents := map id | id in intents ::
        if id in matching then CancelledRow(intents[id], CancelReason(reason), now) else intents[id];
      return |matching|;
    }

    /** The query that picks a row to claim, skipping rows other transactions hold. */
    method SelectForClaim(target: ClaimTarget, generation: string, now: int, locked: set<Uuid>)
      returns (id: Option<Uuid>)
      ensures id.None? <==> forall other | other in intents && other !in locked ::
                              !Claimable(target, other, intents[other], generation, now)
      ensures id.Some? ==> Selects(View(), target, generation, now, locked, id.value)
      // The oldest one, and of equally old ones the one with the lowest id.
      ensures forall other | && id.Some? && other in intents && other !in locked && other != id.value
                             && Claimable(target, other, intents[other], generation, now) ::
                || intents[id.value].createdAt < intents[other].createdAt
                || (intents[id.value].createdAt == intents[other].createdAt && id.value < other)
    {
      var candidates := set other | && other in intents && other !in locked
                                    && Claimable(target, other, intents[other], generation, now);
      if candidates == {} {
        forall other | other in intents && other !in locked
          ensures !Claimable(target, other, intents[other], generation, now)
        {
          assert other !in candidates;
        }
        return None;
      }
      ghost var first := FirstRow(View(), candidates);
      assert first in candidates && forall other | other in candidates :: Before(View(), first, other);
      var chosen :| chosen in candidates && forall other | other in candidates :: Before(View(), chosen, other);
      return Some(chosen);
    }

    /** Claim the next due delivery, or retry exactly one. `token` is fresh. */
    method ClaimDelivery(g: Gateway, target: ClaimTarget, token: Uuid, now: int, claimedAt: int,
                         locked: set<Uuid>, config: WorkerConfig) returns (result: ClaimResult)
      requires Valid()
      modifies this`intents, this`fences
      ensures Valid()
      ensures result.Empty? ==>
                && View() == old(View())
                && forall id | id in old(intents) && id !in locked ::
                  !Claimable(target, id, old(intents)[id], g.generation, now)
      ensures result.Selected? ==>
                && Selects(old(View()), target, g.generation, now, locked, result.id)
                && match Claim(old(View()), g, target, result.id, token, now, claimedAt, config)
                   case Committed(tables, reply) => result.tx == Success(reply) && View() == tables
                   case RolledBack(error) => result.tx == Failure(error) && View() == old(View())
      // The row of a revoked credential is cancelled, whatever the state of the provider.
      ensures result.Selected? && old(intents)[result.id].credential !in activeCredentials ==>
                && result.tx == Success(Reconciled) && fences == old(fences)
                && intents == old(intents)[result.id := intents[result.id]]
                && IsCancelled(intents[result.id], old(intents)[result.id], CredentialInactive, now)
      ensures result.Selected? && (result.tx.Failure? || result.tx.value.ProviderIsSuspended?) ==> View() == old(View())
    {
      var selected := SelectForClaim(target, g.generation, now, locked);
      if selected.None? {
        return Empty;
      }
      var id := selected.value;
      var row := intents[id];
      var reclaiming := row.status.Processing?;
      var source := ProvenanceOf(target, row);
      if row.credential !in activeCredentials {
        intents := intents[id := CancelledRow(row, CredentialInactive, now)];
        return Selected(id, Success(Reconciled));
      }
      var operability := LockProviderAuthority(g);
      if operability.NotNow? {
        return Selected(id, Success(ProviderIsSuspended));
      }
      if operability.NotOurs? {
        return Selected(id, Failure(Continuity));
      }
      var reusing := reclaiming || (row.code.Some? && row.code.value.PreInvocationResult?);
      var permitted := if reusing then 1 <= row.attemptCount <= config.retry.maxAttempts
                       else row.attemptCount < config.retry.maxAttempts;
      var expiresAt := claimedAt + config.budget.LeaseSeconds();
      var claimed := row.(
        status := Processing, code := None, nextAttemptAt := None, deliveredAt := None, receipt := None,
        claim := Some(Lease(token, expiresAt, source)),
        attemptCount := row.attemptCount + if !reusing && row.attemptCount < config.retry.maxAttempts then 1 else 0,
        updatedAt := claimedAt);
      if token in fences {
        return Selected(id, Failure(ConstraintViolation));
      }
      var deadline := config.budget.EffectDeadlineAt(expiresAt);
      if deadline <= claimedAt {
        return Selected(id, Failure(WorkerError));
      }
      intents := intents[id := claimed];
      fences := fences[token := Fence(row.provider, claimedAt, expiresAt)];
      return Selected(id, Success(Claimed(Attempt(id, token, g, deadline, row.credential, row.credentialExpiresAt,
                                                  claimed.attemptCount, row.sealed, source, permitted))));
    }

    method RevalidateInvocation(a: Attempt, now: int, config: WorkerConfig) returns (p: Permission)
      requires Valid()
      ensures p == Revalidate(View(), a, now, config)
      ensures p.Permitted? <==>
                && Holds(View(), a)
                && a.credential in activeCredentials
                && a.gateway.wellFormed && a.gateway.enabled
                && OwnsAuthority(View(), a.gateway) && authorities[a.gateway.generation].suspendedAt.None?
                && var expiresAt := intents[a.id].claim.value.expiresAt;
                   && a.effectDeadlineAt == config.budget.EffectDeadlineAt(expiresAt)
                   && now < a.effectDeadlineAt && now < expiresAt && now < a.credentialExpiresAt
      ensures !Holds(View(), a) ==> p.ClaimLost?
      ensures p.InactiveCredential? <==> Holds(View(), a) && a.credential !in activeCredentials
      ensures p.ExpiredCredential? ==> a.credentialExpiresAt <= now < a.effectDeadlineAt
    {
      if a.id !in intents {
        return ClaimLost;
      }
      var row := intents[a.id];
      if !(row.status.Processing? && row.claim.Some? && row.claim.value.token == a.token) {
        return ClaimLost;
      }
      if a.credential !in activeCredentials {
        return InactiveCredential;
      }
      var operability := LockProviderAuthority(a.gateway);
      if operability.NotNow? {
        return SuspendedProvider;
      }
      if operability.NotOurs? {
        return PreparationFailed;
      }
      var deadline := config.budget.EffectDeadlineAt(row.claim.value.expiresAt);
      if a.effectDeadlineAt != deadline {
        return PreparationFailed;
      }
      if deadline <= now || row.claim.value.expiresAt <= now {
        return ClaimLost;
      }
      if a.credentialExpiresAt <= now {
        return ExpiredCredential;
      }
      return Permitted;
    }

    method PersistUnavailable(g: Gateway, observation: Uuid, now: int) returns (recorded: bool)
      requires Valid()
      modifies this`authorities
      ensures Valid()
      ensures match RecordUnavailable(old(View()), g, observation, now)
              case Some(tables) => recorded && View() == tables
              case None => !recorded && View() == old(View())
    {
      if !g.wellFormed || g.generation !in authorities {
        return false;
      }
      var row := authorities[g.generation];
      if row.retiredAt.Some? || row.fingerprint != g.fingerprint {
        return false;
      }
      if row.suspendedAt.None? || row.suspendedAt.value <= now {
        row := row.(suspendedAt := Some(now), observation := Some(observation));
      }
      row := row.(circuitVersion := row.circuitVersion + 1, probe := None);
      authorities := authorities[g.generation := row];
      return true;
    }

    /** Decide what to write for a resolution, and when to try again. */
    method SettleOutcome(a: Attempt, r: Resolution, now: int, entropy: nat, config: WorkerConfig)
      returns (s: Settlement)
      ensures s == Settle(a, r, now, entropy, config)
      ensures config.Valid() ==> s == Ruling(a, r, now, entropy, config)
      // A next attempt comes after the jittered delay, or what the answer asks for up to the maximum.
      ensures config.Valid() && s.nextAttemptAt.Some? ==>
                s.nextAttemptAt.value - now == IdealDelay(config.retry, a.number, AskedFor(r), entropy)
      // A next attempt is set exactly for what is still retryable, inside the credential's life.
      ensures s.nextAttemptAt.Some? <==> s.resolution.IsRetryable()
      ensures config.Valid() && s.nextAttemptAt.Some? ==> now < s.nextAttemptAt.value < a.credentialExpiresAt
      ensures s.resolution.IsRetryable() <==>
                && r.IsRetryable() && now < a.credentialExpiresAt
                && (r.PreservesAttemptNumber() || a.number < config.retry.maxAttempts)
                && now + RetryDelaySeconds(config.retry, a.number, r.RetryAfter(), entropy) < a.credentialExpiresAt
      // What the provider settled is never overwritten; anything else keeps or turns permanent.
      ensures r.Status().DeliveredStatus? || r.Status().CancelledStatus? ==> s.resolution == r
      ensures s.resolution.IsRetryable() ==> s.resolution == r
      ensures r.IsRetryable() && !s.resolution.IsRetryable() ==> s.resolution.Status().PermanentFailed?
      ensures r.Status().PermanentFailed? && now < a.credentialExpiresAt ==> s.resolution == r
    {
      var outcome := r;
      if now >= a.credentialExpiresAt && !outcome.Status().CancelledStatus? && !outcome.Status().DeliveredStatus? {
        outcome := Outcome(PermanentFailure(CredentialExpired));
      }
      if !r.PreservesAttemptNumber() && outcome.IsRetryable() && a.number >= config.retry.maxAttempts {
        outcome := Outcome(PermanentFailure(AttemptsExhausted));
      }
      var nextAttemptAt: Option<int> := None;
      if outcome.RetryAfter().Some? {
        nextAttemptAt := Some(now + RetryDelaySeconds(config.retry, a.number, outcome.RetryAfter(), entropy));
      }
      if config.Valid() {
        SettlesAsRuled(a, r, now, entropy, config);
        DelayIsPositive(config.retry, a.number, AskedFor(r), entropy);
      }
      if nextAttemptAt.Some? && nextAttemptAt.value >= a.credentialExpiresAt {
        outcome := Outcome(PermanentFailure(CredentialExpired));
        nextAttemptAt := None;
      }
      return Settlement(outcome, nextAttemptAt);
    }

    /** The compare-and-set on the claim token. */
    method ResolveIntent(a: Attempt, s: Settlement, now: int) returns (reply: FinalizeReply)
      modifies this`intents
      ensures View() == Resolve(old(View()), a, s, now)
      ensures reply == if Holds(old(View()), a) then Resolved(View().intents[a.id]) else ClaimWasLost
    {
      if a.id !in intents {
        return ClaimWasLost;
      }
      var row := intents[a.id];
      if !(row.status.Processing? && row.claim.Some? && row.claim.value.token == a.token) {
        return ClaimWasLost;
      }
      if a.credential in activeCredentials {
        row := row.(
          status := s.resolution.Status(), code := s.resolution.Code(), nextAttemptAt := s.nextAttemptAt,
          deliveredAt := if s.resolution.Status().DeliveredStatus? then Some(now) else None,
          receipt := s.resolution.Receipt(), claim := None, updatedAt := now);
        if s.resolution.Status().CancelledStatus? {
          row := row.(sealed := false);
        }
      } else {
        row := CancelledRow(row, CredentialInactive, now);
      }
      intents := intents[a.id := row];
      return Resolved(row);
    }

    method ReleaseFences(a: Attempt, uncertain: bool, batch: set<Uuid>)
      modifies this`fences
      ensures fences == ReleasedFences(old(View()), a, uncertain, batch)
    {
      var released := batch;
      if a.token in fences && fences[a.token].generation == a.gateway.generation && !uncertain {
        released := {a.token} + released;
      }
      fences := fences - released;
    }

    /** Commit what an attempt came to. `batch` is what the collection subquery selects. */
    method FinalizeDelivery(a: Attempt, r: Resolution, invoked: bool, now: int, entropy: nat,
                            batch: set<Uuid>, config: WorkerConfig)
      returns (result: Result<FinalizeReply, DeliveryError>)
      requires Valid()
      requires IsCollected(fences, now, batch)
      modifies this`intents, this`fences, this`authorities
      ensures Valid()
      ensures match Finalize(old(View()), a, r, invoked, now, entropy, batch, config)
              case Committed(tables, reply) => result == Success(reply) && View() == tables
              case RolledBack(error) => result == Failure(error) && View() == old(View())
    {
      var before := intents;
      var settlement := SettleOutcome(a, r, now, entropy, config);
      var reply := ResolveIntent(a, settlement, now);
      if invoked && r.SaysUnavailable() {
        var recorded := PersistUnavailable(a.gateway, a.id, now);
        if !recorded {
          intents := before;
          return Failure(Continuity);
        }
      }
      ReleaseFences(a, invoked && r.IsUncertain(), batch);
      return Success(reply);
    }

    /** Retire the active generation, if there is one, and enter the fresh one. */
    method SwitchGeneration(g: Gateway, now: int)
      requires Valid() && g.generation !in authorities
      modifies this`authorities
      ensures Valid()
      ensures authorities == (map h | h in old(authorities) ::
                if old(authorities)[h].retiredAt.None? then Retire(old(authorities)[h], now) else old(authorities)[h])
                [g.generation := Authority(g.fingerprint, now, now, 0, None, None, None, None)]
    {
      var active := set h | h in authorities && authorities[h].retiredAt.None?;
      assert forall h | h in authorities :: h in active <==> authorities[h].retiredAt.None?;
      if active != {} {
        var previous :| previous in active;
        authorities := authorities[previous := Retire(authorities[previous], now)];
      }
      assert forall h | h in authorities :: authorities[h].retiredAt.Some?;
      authorities := authorities[g.generation := Authority(g.fingerprint, now, now, 0, None, None, None, None)];
    }

    /** Bind the configured generation at startup, collecting every expired fence. */
    method BindProviderAuthority(g: Gateway, now: int) returns (result: Result<(), DeliveryError>)
      requires Valid()
      modifies this`fences, this`authorities
      ensures Valid()
      ensures match Bind(old(View()), g, now)
              case Committed(tables, _) => result == Success(()) && View() == tables
              case RolledBack(error) => result == Failure(error) && View() == old(View())
    {
      if !g.wellFormed || !g.enabled {
        return Failure(Continuity);
      }
      var before := fences;
      fences := map token | token in fences && !Expired(fences[token], now) :: fences[token];
      if g.generation in authorities && authorities[g.generation].retiredAt.None? {
        var row := authorities[g.generation];
        if row.fingerprint != g.fingerprint {
          fences := before;
          return Failure(Continuity);
        }
        if row.probe.Some? && row.probe.value.expiresAt <= now {
          row := row.(circuitVersion := row.circuitVersion + 1, probe := None);
        }
        row := row.(lastBoundAt := Max(row.lastBoundAt, now));
        authorities := authorities[g.generation := row];
        return Success(());
      }
      if |fences| != 0
         || (exists id | id in intents :: !Terminal(intents[id].status))
         || g.generation in authorities {
        fences := before;
        return Failure(Continuity);
      }
      SwitchGeneration(g, now);
      return Success(());
    }

    method LeaseProviderProbe(g: Gateway, token: Uuid, now: int, config: WorkerConfig)
      returns (result: Result<ProbeReply, DeliveryError>)
      requires Valid()
      modifies this`authorities
      ensures Valid()
      ensures match LeaseProbe(old(View()), g, token, now, config)
              case Committed(tables, reply) => result == Success(reply) && View() == tables
              case RolledBack(error) => result == Failure(error) && View() == old(View())
    {
      if !g.wellFormed {
        return Failure(Continuity);
      }
      if !g.enabled {
        return Failure(Suspended);
      }
      if g.generation !in authorities || authorities[g.generation].retiredAt.Some?
         || authorities[g.generation].fingerprint != g.fingerprint {
        return Failure(Continuity);
      }
      var row := authorities[g.generation];
      if row.suspendedAt.None? {
        return Success(NotSuspended);
      }
      if row.probe.Some? && row.probe.value.expiresAt > now {
        return Success(Conflict);
      }
      row := row.(circuitVersion := row.circuitVersion + 1,
                  probe := Some(Probe(token, now + config.budget.LeaseSeconds())));
      authorities := authorities[g.generation := row];
      return Success(Acquired(row.circuitVersion));
    }

    method FinishProviderProbe(g: Gateway, token: Uuid, version: int, available: bool, now: int) returns (applied: bool)
      requires Valid()
      modifies this`authorities
      ensures Valid()
      ensures match FinishProbe(old(View()), g, token, version, available, now)
              case Some(tables) => applied && View() == tables
              case None => !applied && View() == old(View())
    {
      if g.generation !in authorities {
        return false;
      }
      var row := authorities[g.generation];
      if row.retiredAt.Some? || row.fingerprint != g.fingerprint || row.suspendedAt.None?
         || row.circuitVersion != version || row.probe.None? || row.probe.value.token != token {
        return false;
      }
      if available && row.probe.value.expiresAt <= now {
        return false;
      }
      if available {
        row := row.(suspendedAt := None, observation := None);
      } else {
        row := row.(suspendedAt := Some(Max(row.suspendedAt.value, now)), observation := Some(token));
      }
      row := row.(circuitVersion := row.circuitVersion + 1, probe := None);
      authorities := authorities[g.generation := row];
      return true;
    }
  }
}
