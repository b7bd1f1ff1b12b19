/** What single steps of the delivery protocol do, said of the rows before and after them:
    when an intent is accepted, cancelled, claimed and called for, and what that leaves. */
module DeliveryEffects {
  import opened Wrappers
  import opened DeliveryTables
  import opened DeliveryProtocol
  import opened DeliverySafety
  import opened DeliverySettlement
  import opened DeliveryTheorems

  /** The gateway serves the active generation and is not suspended. */
  ghost predicate Serves(t: Tables, g: Gateway) {
    && g.wellFormed && g.enabled && OwnsAuthority(t, g)
    && t.authorities[g.generation].suspendedAt.None?
  }

  /* ---------------------------- enqueue, cancel, erase ------------------------ */

  ghost predicate Enters(s: System, g: Gateway, id: Uuid, c: Credential, expires: int, now: int) {
    && Serves(s.tables, g) && now < expires && id !in s.history.enqueued && id !in s.tables.intents
    && forall other | other in s.tables.intents :: s.tables.intents[other].credential.hash != c.hash
  }

  /** An intent enters exactly through a gateway that serves, once for its credential, and
      waits from the moment it enters; otherwise nothing happens. */
  lemma EnqueuesExactly(s: System, g: Gateway, id: Uuid, c: Credential, expires: int, now: int)
    ensures
      var t := Apply(s, EnqueueIntent(g, id, c, expires, now));
      if Enters(s, g, id, c, expires, now) then
        && t.tables == s.tables.(intents := t.tables.intents) && t.workers == s.workers && t.clock == s.clock
        && id in t.tables.intents && t.tables.intents == s.tables.intents[id := t.tables.intents[id]]
        && var row := t.tables.intents[id];
           && row.provider == g.generation && row.credential == c && row.credentialExpiresAt == expires
           && row.createdAt == now && row.status.Queued? && row.attemptCount == 0 && row.sealed
           && row.nextAttemptAt == Some(now) && row.claim.None? && row.code.None? && row.receipt.None?
      else t == s
  {
  }

  /** Why an intent is refused. */
  lemma EnqueueRefusals(t: Tables, g: Gateway, id: Uuid, c: Credential, expires: int, now: int)
    ensures
      var tx := Enqueue(t, g, id, c, expires, now);
      && (tx == RolledBack(Unavailable) <==> !g.enabled)
      && (tx == RolledBack(Suspended) <==>
            && g.enabled && g.wellFormed && OwnsAuthority(t, g) && t.authorities[g.generation].suspendedAt.Some?)
      && (tx == RolledBack(Continuity) <==> g.enabled && !(g.wellFormed && OwnsAuthority(t, g)))
      && (tx == RolledBack(ConstraintViolation) <==>
            && Serves(t, g)
            && (id in t.intents || expires <= now
                || exists other :: other in t.intents && t.intents[other].credential.hash == c.hash))
  {
  }

  /** A cancellation ends exactly the unfinished intents of its credential's hash. */
  lemma CancelsExactly(s: System, hash: string, reason: string, now: int)
    ensures
      var t := Apply(s, CancelCredential(hash, reason, now));
      && t == s.(tables := s.tables.(intents := t.tables.intents))
      && t.tables.intents.Keys == s.tables.intents.Keys
      && forall id | id in s.tables.intents ::
           var row := s.tables.intents[id];
           if && row.credential.hash == hash
              && (row.status.Queued? || row.status.Processing? || row.status.RetryableFailed?)
           then IsCancelled(t.tables.intents[id], row, CancelReason(reason), now)
           else t.tables.intents[id] == row
  {
  }

  /** An erasure removes exactly the named intents; every fence stays. */
  lemma ErasesExactly(s: System, ids: set<Uuid>)
    ensures
      var t := Apply(s, EraseIntents(ids));
      && t == s.(tables := s.tables.(intents := t.tables.intents))
      && t.tables.intents.Keys == s.tables.intents.Keys - ids
      && forall id | id in t.tables.intents :: t.tables.intents[id] == s.tables.intents[id]
  {
  }

  /* ----------------------------------- claims --------------------------------- */

  /** A claim step that is enabled: its query found this row. */
  ghost predicate Finds(s: System, step: Step) {
    && step.ClaimIntent? && s.clock <= step.now <= step.claimedAt && step.token !in s.history.issued
    && step.id in s.tables.intents
    && Claimable(step.target, step.id, s.tables.intents[step.id], step.gateway.generation, step.now)
  }

  ghost predicate CredentialActive(s: System, id: Uuid)
    requires id in s.tables.intents
  {
    s.tables.intents[id].credential in s.tables.activeCredentials
  }

  /** A claim that finds a row of a revoked credential cancels it, whatever the state of the
      provider: no worker starts, no fence is added, and no other row is touched. */
  lemma RevokedCredentialIsCancelled(s: System, step: Step)
    requires Finds(s, step) && !CredentialActive(s, step.id)
    ensures
      var t := Apply(s, step);
      && t == s.(clock := step.claimedAt, tables := s.tables.(intents := t.tables.intents))
      && step.id in t.tables.intents
      && t.tables.intents == s.tables.intents[step.id := t.tables.intents[step.id]]
      && IsCancelled(t.tables.intents[step.id], s.tables.intents[step.id], CredentialInactive, step.now)
  {
  }

  /** And no claim ever finds that row again. */
  lemma RevokedCredentialIsNeverClaimed(s: System, config: WorkerConfig, clock: int, steps: seq<Step>, step: Step,
                                        later: seq<Step>)
    requires IsReachable(s, config, clock, steps)
    requires Finds(s, step) && !CredentialActive(s, step.id)
    ensures
      var t := Run(Apply(s, step), later);
      step.id in t.tables.intents ==>
        && t.tables.intents[step.id] == Apply(s, step).tables.intents[step.id]
        && forall target, generation, at ::
             !Claimable(target, step.id, t.tables.intents[step.id], generation, at)
  {
    var t := Apply(s, step);
    ReachableFacts(s, config, clock, steps);
    RevokedCredentialIsCancelled(s, step);
    TerminalForever(t, later, step.id, t.tables.intents[step.id]);
  }

  /** A claim through a gateway that does not serve writes nothing. */
  lemma UnservedClaimChangesNothing(s: System, step: Step)
    requires Finds(s, step) && CredentialActive(s, step.id) && !Serves(s.tables, step.gateway)
    ensures
      var t := Apply(s, step);
      t.tables == s.tables && t.workers == s.workers && t.history == s.history
  {
  }

  /** What a claim is replied when it is not granted. */
  lemma ClaimReplies(t: Tables, g: Gateway, target: ClaimTarget, id: Uuid, token: Uuid, now: int, claimedAt: int,
                     config: WorkerConfig)
    requires id in t.intents && config.Valid() && token !in t.fences
    ensures
      var tx := Claim(t, g, target, id, token, now, claimedAt, config);
      var active := t.intents[id].credential in t.activeCredentials;
      && (tx.Committed? && tx.reply.Reconciled? <==> !active)
      && (tx.Committed? && tx.reply.ProviderIsSuspended? <==>
            && active && g.wellFormed
            && (!g.enabled || (OwnsAuthority(t, g) && t.authorities[g.generation].suspendedAt.Some?)))
      && (tx == RolledBack(Continuity) <==> active && (!g.wellFormed || (g.enabled && !OwnsAuthority(t, g))))
      && (tx.Committed? && tx.reply.Claimed? <==> active && Serves(t, g))
  {
    ConfigFacts(config);
  }

  /** On whose behalf a claim is made: a recovery keeps the lost claim's source, a retry by
      hand names its actor, and any other claim is automatic. */
  ghost predicate SourceIs(source: Provenance, target: ClaimTarget, row: Intent) {
    match row.status
    case Processing => row.claim.Some? && source == row.claim.value.source
    case _ =>
      match target
      case Exactly(_, actor, _) => source == ExplicitRetry(actor)
      case NextDue => source == Automatic
  }

  /** The lease, the fence and the worker that a granted claim leaves, all on one clock. */
  ghost predicate Grants(s: System, t: System, step: Step)
    requires Finds(s, step)
  {
    var (before, expiresAt) := (s.tables.intents[step.id], step.claimedAt + s.config.budget.LeaseSeconds());
    && step.id in t.tables.intents && step.token in t.workers
    && t.clock == step.claimedAt
    && t.tables == s.tables.(
       intents := s.tables.intents[step.id := t.tables.intents[step.id]],
       fences := s.tables.fences[step.token := Fence(step.gateway.generation, step.claimedAt, expiresAt)])
    && t.workers == s.workers[step.token := t.workers[step.token]]
    && var (row, w) := (t.tables.intents[step.id], t.workers[step.token]);
       && SameIntent(row, before) && row.sealed == before.sealed
       && row.status.Processing? && row.code.None? && row.nextAttemptAt.None? && row.updatedAt == step.claimedAt
       && row.claim.Some? && row.claim.value.token == step.token && row.claim.value.expiresAt == expiresAt
       && SourceIs(row.claim.value.source, step.target, before)
       && w.phase.Held? && w.attempt.id == step.id && w.attempt.token == step.token
       && w.attempt.gateway == step.gateway && w.attempt.effectDeadlineAt == expiresAt - s.config.budget.MarginSeconds()
       && w.attempt.credential == row.credential && w.attempt.credentialExpiresAt == row.credentialExpiresAt
       && w.attempt.number == row.attemptCount && w.attempt.sealed == row.sealed
       && w.attempt.source == row.claim.value.source
  }

  lemma ServedClaimGrants(s: System, step: Step)
    requires Finds(s, step) && CredentialActive(s, step.id) && Serves(s.tables, step.gateway)
    requires step.token !in s.tables.fences
    requires s.config.budget.MarginSeconds() < s.config.budget.LeaseSeconds()
    requires s.tables.intents[step.id].status.Processing? ==> s.tables.intents[step.id].claim.Some?
    ensures Grants(s, Apply(s, step), step)
  {
  }

  /** A claim grants a worker exactly when the credential is active and the gateway serves. */
  lemma ClaimGrantsExactly(s: System, config: WorkerConfig, clock: int, steps: seq<Step>, step: Step)
    requires IsReachable(s, config, clock, steps) && Finds(s, step)
    ensures step.token in Apply(s, step).workers <==>
            step.token in s.workers || (CredentialActive(s, step.id) && Serves(s.tables, step.gateway))
    ensures CredentialActive(s, step.id) && Serves(s.tables, step.gateway) ==> Grants(s, Apply(s, step), step)
  {
    if !CredentialActive(s, step.id) {
      RevokedCredentialIsCancelled(s, step);
    } else if !Serves(s.tables, step.gateway) {
      UnservedClaimChangesNothing(s, step);
    } else {
      assert step.token !in s.tables.fences && IntentOk(s.tables.intents[step.id], s.config, s.clock)
        && s.config.Valid() by {
        ReachableFacts(s, config, clock, steps);
      }
      ConfigFacts(s.config);
      ServedClaimGrants(s, step);
    }
  }

  /** When the next claim may take an unfinished intent up. */
  ghost function WakesAt(row: Intent): int {
    match row.status
    case Queued => row.createdAt
    case Processing => if row.claim.Some? then row.claim.value.expiresAt else row.updatedAt
    case _ => if row.nextAttemptAt.Some? then row.nextAttemptAt.value else row.updatedAt
  }

  /** The queue wakes exactly: an intent is due once it was created, once its waiting time is
      over, or once its lease has run out, and never after it has finished. By hand exactly a
      waiting intent whose count is as expected may be retried, at any time. */
  lemma DueExactly(s: System, config: WorkerConfig, clock: int, steps: seq<Step>, id: Uuid, generation: string,
                   now: int)
    requires IsReachable(s, config, clock, steps) && id in s.tables.intents
    ensures
      var row := s.tables.intents[id];
      && (Claimable(NextDue, id, row, generation, now) <==>
            row.provider == generation && !Terminal(row.status) && WakesAt(row) <= now)
      && (forall wanted, actor, expected ::
            Claimable(Exactly(wanted, actor, expected), id, row, generation, now) <==>
              row.provider == generation && wanted == id && row.status.RetryableFailed? && row.attemptCount == expected)
  {
    ReachableFacts(s, config, clock, steps);
    assert IntentOk(s.tables.intents[id], config, s.clock);
  }

  /** No intent is stuck: from its waking time on, a claim with a fresh token through a
      gateway of its generation that serves starts a worker on it or cancels it. */
  lemma NoIntentIsStuck(s: System, config: WorkerConfig, clock: int, steps: seq<Step>, id: Uuid, g: Gateway,
                        token: Uuid, now: int)
    requires IsReachable(s, config, clock, steps) && id in s.tables.intents && !Terminal(s.tables.intents[id].status)
    requires g.generation == s.tables.intents[id].provider && Serves(s.tables, g) && token !in s.history.issued
    requires s.clock <= now && WakesAt(s.tables.intents[id]) <= now
    ensures
      var t := Apply(s, ClaimIntent(g, NextDue, id, token, now, now));
      && id in t.tables.intents
      && if CredentialActive(s, id) then token in t.workers && Holds(t.tables, t.workers[token].attempt)
         else t.tables.intents[id].status.CancelledStatus?
  {
    var step := ClaimIntent(g, NextDue, id, token, now, now);
    DueExactly(s, config, clock, steps, id, g.generation, now);
    if CredentialActive(s, id) {
      ClaimGrantsExactly(s, config, clock, steps, step);
    } else {
      RevokedCredentialIsCancelled(s, step);
    }
  }

  /* -------------------------------- preparations ------------------------------ */

  /** What a preparation finds out, the first that applies. The claim's own deadline lies
      before its end, so it alone decides whether there is still time. */
  ghost function Finding(s: System, a: Attempt, now: int, failed: bool, unsealed: bool): Option<Resolution> {
    var transient := Some(BeforeInvocation(PreparationTransient));
    if failed || !Holds(s.tables, a) then transient
    else if a.credential !in s.tables.activeCredentials then Some(Outcome(Cancelled))
    else if !a.gateway.wellFormed then transient
    else if !a.gateway.enabled then Some(BeforeInvocation(ProviderSuspended))
    else if !OwnsAuthority(s.tables, a.gateway) then transient
    else if !Serves(s.tables, a.gateway) then Some(BeforeInvocation(ProviderSuspended))
    else if a.effectDeadlineAt <= now then transient
    else if a.credentialExpiresAt <= now then Some(EXPIRED)
    else if !(a.sealed && unsealed) then Some(Outcome(PermanentFailure(CredentialUnavailable)))
    else None
  }

  lemma PreparationFinds(s: System, token: Uuid, now: int, failed: bool, unsealed: bool)
    requires s.clock <= now && token in s.workers && s.workers[token].phase.Held? && s.workers[token].attempt.permitted
    requires
      var a := s.workers[token].attempt;
      Holds(s.tables, a) ==>
        && a.effectDeadlineAt == s.config.budget.EffectDeadlineAt(s.tables.intents[a.id].claim.value.expiresAt)
        && a.effectDeadlineAt < s.tables.intents[a.id].claim.value.expiresAt
    ensures
      var a := s.workers[token].attempt;
      var t := Apply(s, PrepareCall(token, now, failed, unsealed));
      var finding := Finding(s, a, now, failed, unsealed);
      && t.tables == s.tables && t.clock == now
      && t.workers == s.workers[token :=
           Worker(a, if finding.None? then Calling else Answered(finding.value, false))]
      && (finding.None? ==> token in t.history.authorized && t.history.authorized[token].deadline == a.effectDeadlineAt)
  {
  }

  /** The provider is called exactly when a preparation finds nothing against it, and what it
      finds otherwise is what the worker goes to finalize. The tables stay as they are. */
  lemma PreparationDecides(s: System, config: WorkerConfig, clock: int, steps: seq<Step>, token: Uuid, now: int,
                           failed: bool, unsealed: bool)
    requires IsReachable(s, config, clock, steps)
    requires s.clock <= now && token in s.workers && s.workers[token].phase.Held?
    ensures
      var a := s.workers[token].attempt;
      var t := Apply(s, PrepareCall(token, now, failed, unsealed));
      var finding := Finding(s, a, now, failed, unsealed);
      && t.tables == s.tables && t.clock == now
      && t.workers == s.workers[token :=
           Worker(a, if finding.None? then Calling else Answered(finding.value, false))]
      && (finding.None? ==> token in t.history.authorized && t.history.authorized[token].deadline == a.effectDeadlineAt)
  {
    var a := s.workers[token].attempt;
    assert WorkerOk(s, token) && s.config.Valid() by {
      ReachableFacts(s, config, clock, steps);
    }
    ConfigFacts(s.config);
    PreparationFinds(s, token, now, failed, unsealed);
  }
}
