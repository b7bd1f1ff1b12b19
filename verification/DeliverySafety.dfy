/** The invariants of the delivery protocol and what they say about every run. */
module DeliverySafety {
  import opened Wrappers
  import opened DeliveryTiming
  import opened DeliveryTables
  import opened DeliveryProtocol

  /* -------------------------------- invariants -------------------------------- */

  /** The lifecycle, probe and time checks of the authority table's schema. */
  ghost predicate AuthorityRowOk(row: Authority, clock: int) {
    && 0 <= row.circuitVersion
    && row.activatedAt <= row.lastBoundAt <= clock
    && (row.retiredAt.Some? ==> row.activatedAt <= row.retiredAt.value <= clock && row.suspendedAt.None?)
    && (row.suspendedAt.Some? ==> row.activatedAt <= row.suspendedAt.value <= clock)
    && (row.suspendedAt.Some? <==> row.observation.Some?)
    && (row.probe.Some? ==> row.suspendedAt.Some? && row.probe.value.expiresAt > row.suspendedAt.value)
  }

  ghost predicate AuthoritiesOk(authorities: map<string, Authority>, clock: int) {
    && (forall g | g in authorities :: AuthorityRowOk(authorities[g], clock))
    && (forall g, h | && g in authorities && h in authorities
                      && authorities[g].retiredAt.None? && authorities[h].retiredAt.None? ::
          g == h)
  }

  /** The delivery-shape and expiry checks of the intent table's schema. */
  ghost predicate MeetsSchema(row: Intent) {
    && 0 <= row.attemptCount
    && row.createdAt < row.credentialExpiresAt
    && (row.claim.Some? <==> row.status.Processing?)
    && (row.nextAttemptAt.Some? <==> row.status.Queued? || row.status.RetryableFailed?)
    && (row.deliveredAt.Some? <==> row.status.DeliveredStatus?)
    && (row.receipt.Some? <==> row.status.DeliveredStatus?)
    && (row.code.Some? <==> row.status.RetryableFailed? || row.status.PermanentFailed? || row.status.CancelledStatus?)
    && (row.status.CancelledStatus? ==> !row.sealed)
  }

  ghost predicate IntentOk(row: Intent, config: WorkerConfig, clock: int) {
    && MeetsSchema(row)
    && row.attemptCount <= config.retry.maxAttempts
    && match row.status
       case Queued => row.attemptCount == 0 && row.nextAttemptAt.value == row.createdAt
       case Processing =>
         && 1 <= row.attemptCount
         && row.updatedAt <= clock
         && row.claim.value.expiresAt == config.budget.ClaimExpiresAt(row.updatedAt)
       case RetryableFailed =>
         && 1 <= row.attemptCount
         && row.updatedAt <= clock
         && row.updatedAt < row.nextAttemptAt.value < row.credentialExpiresAt
         && (row.code.value.PreInvocationResult? || row.attemptCount < config.retry.maxAttempts)
       case _ => true
  }

  ghost predicate IntentsOk(s: System) {
    forall id | id in s.tables.intents ::
      && IntentOk(s.tables.intents[id], s.config, s.clock)
      && (!Terminal(s.tables.intents[id].status) ==> s.tables.Active(s.tables.intents[id].provider))
  }

  ghost predicate FencesOk(s: System) {
    forall token | token in s.tables.fences ::
      && token in s.history.issued
      && s.tables.fences[token].startedAt < s.tables.fences[token].expiresAt
      && s.tables.fences[token].generation in s.tables.authorities
      && (!Expired(s.tables.fences[token], s.clock) ==> s.tables.Active(s.tables.fences[token].generation))
  }

  ghost predicate FencedUntil(t: Tables, token: Uuid, generation: string, expiresAt: int) {
    token in t.fences && t.fences[token].expiresAt == expiresAt && t.fences[token].generation == generation
  }

  /** A processing row: its token was issued, never resolved anything, is held by no
      other row and by no other intent's worker, and is fenced while the claim lives. */
  ghost predicate ClaimOk(s: System, id: Uuid)
    requires id in s.tables.intents && s.tables.intents[id].claim.Some?
  {
    var lease := s.tables.intents[id].claim.value;
    && lease.token in s.history.issued
    && lease.token !in s.history.definitive
    && (forall k | 0 <= k < |s.history.resolutions| :: s.history.resolutions[k].token != lease.token)
    && (forall other | other in s.tables.intents && s.tables.intents[other].claim.Some? ::
          s.tables.intents[other].claim.value.token == lease.token ==> other == id)
    && (lease.token in s.workers ==> s.workers[lease.token].attempt.id == id)
    && (lease.expiresAt > s.clock ==>
        FencedUntil(s.tables, lease.token, s.tables.intents[id].provider, lease.expiresAt))
    && (lease.source.ExplicitRetry? ==> id in s.history.explicitly)
    && (lease.token in s.history.authorized ==>
          s.history.authorized[lease.token].deadline == s.config.budget.EffectDeadlineAt(lease.expiresAt))
  }

  ghost predicate ClaimsOk(s: System) {
    forall id | id in s.tables.intents && s.tables.intents[id].claim.Some? :: ClaimOk(s, id)
  }

  ghost predicate AttemptMatches(row: Intent, a: Attempt, config: WorkerConfig)
    requires row.claim.Some?
  {
    && row.attemptCount == a.number
    && row.credentialExpiresAt == a.credentialExpiresAt
    && row.credential == a.credential
    && row.provider == a.gateway.generation
    && a.effectDeadlineAt == config.budget.EffectDeadlineAt(row.claim.value.expiresAt)
    && a.source == row.claim.value.source
  }

  ghost predicate WorkerOk(s: System, token: Uuid)
    requires token in s.workers
  {
    var w := s.workers[token];
    && w.attempt.token == token
    && token in s.history.issued
    && token !in s.history.definitive
    && w.attempt.permitted
    && 1 <= w.attempt.number <= s.config.retry.maxAttempts
    && (w.phase.Calling? ==> token in s.history.authorized)
    && (w.phase.Answered? && w.phase.invoked ==> token in s.history.authorized)
    && (w.phase.Answered? && w.phase.resolution.IsRetryable() ==>
          (w.phase.invoked <==> !w.phase.resolution.PreservesAttemptNumber()))
    && (Holds(s.tables, w.attempt) ==> AttemptMatches(s.tables.intents[w.attempt.id], w.attempt, s.config))
  }

  ghost predicate WorkersOk(s: System) {
    forall token | token in s.workers :: WorkerOk(s, token)
  }

  /** An authorized call that no definitive finalization has released. */
  ghost predicate Unresolved(h: History, token: Uuid) {
    token in h.authorized && token !in h.definitive
  }

  ghost predicate AuthorizationOk(s: System, token: Uuid)
    requires token in s.history.authorized
  {
    var a := s.history.authorized[token];
    && token in s.history.issued
    && 1 <= a.number <= s.config.retry.maxAttempts
    && a.at < a.deadline
    && (Unresolved(s.history, token) && s.clock < a.deadline ==>
          FencedUntil(s.tables, token, a.generation, a.deadline + s.config.budget.MarginSeconds()))
  }

  ghost predicate AuthorizationsOk(s: System) {
    forall token | token in s.history.authorized :: AuthorizationOk(s, token)
  }

  /** Only issued tokens resolve anything, and each of them at most once. */
  ghost predicate HistoryOk(h: History) {
    && h.definitive <= h.issued
    && h.authorized.Keys <= h.issued
    && (forall k | 0 <= k < |h.resolutions| :: h.resolutions[k].token in h.issued)
    && (forall j, k | 0 <= j < k < |h.resolutions| :: h.resolutions[j].token != h.resolutions[k].token)
  }

  ghost predicate Inv(s: System) {
    && s.config.Valid()
    && HistoryOk(s.history)
    && AuthoritiesOk(s.tables.authorities, s.clock)
    && IntentsOk(s)
    && FencesOk(s)
    && ClaimsOk(s)
    && WorkersOk(s)
    && AuthorizationsOk(s)
  }

  lemma ConfigFacts(config: WorkerConfig)
    requires config.Valid()
    ensures 1 <= config.budget.MarginSeconds()
    ensures config.budget.MarginSeconds() + 1 < config.budget.LeaseSeconds()
    ensures 1 <= config.retry.maxAttempts
  {
  }

  /* ------------------------- every step keeps them ---------------------------- */

  lemma TickKeeps(s: System, now: int)
    requires Inv(s)
    ensures Inv(Apply(s, Tick(now)))
  {
  }

  lemma SetCredentialKeeps(s: System, c: Credential, active: bool)
    requires Inv(s)
    ensures Inv(Apply(s, SetCredential(c, active)))
  {
  }

  /** A fresh queued row of an active generation, with which nothing is connected yet. */
  ghost predicate Enqueues(s: System, t: System, id: Uuid, row: Intent) {
    && id !in s.tables.intents
    && row.status.Queued? && IntentOk(row, s.config, s.clock) && s.tables.Active(row.provider)
    && t.tables == s.tables.(intents := s.tables.intents[id := row])
    && t.config == s.config && t.clock == s.clock && t.workers == s.workers
    && t.history == s.history.(enqueued := t.history.enqueued)
  }

  lemma EnqueuingKeepsRows(s: System, t: System, id: Uuid, row: Intent)
    requires IntentsOk(s) && FencesOk(s) && Enqueues(s, t, id, row)
    ensures IntentsOk(t) && FencesOk(t)
  {
    assert forall g :: s.tables.Active(g) == t.tables.Active(g);
  }

  lemma EnqueuingKeepsClaims(s: System, t: System, id: Uuid, row: Intent)
    requires ClaimsOk(s) && Enqueues(s, t, id, row)
    ensures ClaimsOk(t)
  {
    forall other | other in t.tables.intents && t.tables.intents[other].claim.Some?
      ensures ClaimOk(t, other)
    {
      assert other != id && ClaimOk(s, other);
    }
  }

  lemma EnqueuingKeepsCalls(s: System, t: System, id: Uuid, row: Intent)
    requires WorkersOk(s) && AuthorizationsOk(s) && Enqueues(s, t, id, row)
    ensures WorkersOk(t) && AuthorizationsOk(t)
  {
    forall token | token in t.workers
      ensures WorkerOk(t, token)
    {
      assert WorkerOk(s, token);
    }
    assert forall token | token in t.history.authorized :: AuthorizationOk(s, token);
  }

  lemma EnqueueKeeps(s: System, g: Gateway, id: Uuid, c: Credential, expires: int, now: int)
    requires Inv(s)
    ensures Inv(Apply(s, EnqueueIntent(g, id, c, expires, now)))
  {
    var t := Apply(s, EnqueueIntent(g, id, c, expires, now));
    if t != s {
      var row := NewIntent(g.generation, c, expires, now);
      ConfigFacts(s.config);
      EnqueuingKeepsRows(s, t, id, row);
      EnqueuingKeepsClaims(s, t, id, row);
      EnqueuingKeepsCalls(s, t, id, row);
    }
  }

  /** Rows that only disappear or end, in any number. */
  ghost predicate RowsEnd(s: System, intents: map<Uuid, Intent>) {
    forall id | id in intents ::
      && id in s.tables.intents
      && (intents[id] == s.tables.intents[id]
          || (IntentOk(intents[id], s.config, s.clock) && Terminal(intents[id].status)))
  }

  ghost function WithIntents(s: System, intents: map<Uuid, Intent>): System {
    s.(tables := s.tables.(intents := intents))
  }

  lemma EndingKeepsRows(s: System, intents: map<Uuid, Intent>)
    requires IntentsOk(s) && FencesOk(s) && RowsEnd(s, intents)
    ensures IntentsOk(WithIntents(s, intents)) && FencesOk(WithIntents(s, intents))
  {
    var t := WithIntents(s, intents);
    assert forall g :: s.tables.Active(g) == t.tables.Active(g);
  }

  lemma EndingKeepsClaims(s: System, intents: map<Uuid, Intent>)
    requires ClaimsOk(s) && RowsEnd(s, intents)
    ensures ClaimsOk(WithIntents(s, intents))
  {
    var t := WithIntents(s, intents);
    forall id | id in t.tables.intents && t.tables.intents[id].claim.Some?
      ensures ClaimOk(t, id)
    {
      assert t.tables.intents[id] == s.tables.intents[id] && ClaimOk(s, id);
    }
  }

  lemma EndingKeepsCalls(s: System, intents: map<Uuid, Intent>)
    requires WorkersOk(s) && AuthorizationsOk(s) && RowsEnd(s, intents)
    ensures WorkersOk(WithIntents(s, intents)) && AuthorizationsOk(WithIntents(s, intents))
  {
    var t := WithIntents(s, intents);
    forall token | token in t.workers
      ensures WorkerOk(t, token)
    {
      assert WorkerOk(s, token);
    }
    assert forall token | token in t.history.authorized :: AuthorizationOk(s, token);
  }

  lemma EndingKeeps(s: System, intents: map<Uuid, Intent>)
    requires Inv(s) && RowsEnd(s, intents)
    ensures Inv(WithIntents(s, intents))
  {
    EndingKeepsRows(s, intents);
    EndingKeepsClaims(s, intents);
    EndingKeepsCalls(s, intents);
  }

  lemma CancelKeeps(s: System, hash: string, reason: string, now: int)
    requires Inv(s)
    ensures Inv(Apply(s, CancelCredential(hash, reason, now)))
  {
    var intents := CancelByCredential(s.tables, hash, reason, now).intents;
    forall id | id in intents && intents[id] != s.tables.intents[id]
      ensures IntentOk(intents[id], s.config, s.clock) && Terminal(intents[id].status)
    {
      assert IntentOk(s.tables.intents[id], s.config, s.clock);
    }
    EndingKeeps(s, intents);
  }

  lemma EraseKeeps(s: System, ids: set<Uuid>)
    requires Inv(s)
    ensures Inv(Apply(s, EraseIntents(ids)))
  {
    EndingKeeps(s, s.tables.intents - ids);
  }

  lemma PhaseChangeKeeps(s: System, token: Uuid, phase: Phase)
    requires Inv(s) && token in s.workers
    requires phase.Calling? || (phase.Answered? && phase.invoked) ==> token in s.history.authorized
    requires phase.Answered? && phase.resolution.IsRetryable() ==>
               (phase.invoked <==> !phase.resolution.PreservesAttemptNumber())
    ensures Inv(s.(workers := s.workers[token := s.workers[token].(phase := phase)]))
  {
    var t := s.(workers := s.workers[token := s.workers[token].(phase := phase)]);
    forall other | other in t.workers
      ensures WorkerOk(t, other)
    {
      assert WorkerOk(s, other);
    }
    assert forall id | id in t.tables.intents && t.tables.intents[id].claim.Some? :: ClaimOk(s, id);
    assert forall other | other in t.history.authorized :: AuthorizationOk(s, other);
  }

  lemma AnswerKeeps(s: System, token: Uuid, outcome: ProviderOutcome)
    requires Inv(s)
    ensures Inv(Apply(s, ProviderAnswers(token, outcome)))
  {
    if token in s.workers && s.workers[token].phase.Calling? {
      assert WorkerOk(s, token);
      PhaseChangeKeeps(s, token, Answered(Outcome(outcome), true));
    }
  }

  lemma CrashKeeps(s: System, token: Uuid)
    requires Inv(s)
    ensures Inv(Apply(s, Crash(token)))
  {
  }

  ghost predicate CircuitChanges(s: System, t: System, g: string, row: Authority) {
    && s.tables.Active(g) && row.retiredAt.None? && AuthorityRowOk(row, s.clock)
    && t.tables == s.tables.(authorities := s.tables.authorities[g := row])
    && t.history.issued >= s.history.issued
    && t.history == s.history.(issued := t.history.issued, circuit := t.history.circuit)
    && t.config == s.config && t.clock == s.clock && t.workers == s.workers
  }

  lemma CircuitChangeKeepsRows(s: System, t: System, g: string, row: Authority)
    requires AuthoritiesOk(s.tables.authorities, s.clock) && IntentsOk(s) && FencesOk(s)
    requires CircuitChanges(s, t, g, row)
    ensures AuthoritiesOk(t.tables.authorities, t.clock) && IntentsOk(t) && FencesOk(t)
  {
    assert forall h :: s.tables.Active(h) == t.tables.Active(h);
  }

  lemma CircuitChangeKeepsCalls(s: System, t: System, g: string, row: Authority)
    requires HistoryOk(s.history) && ClaimsOk(s) && WorkersOk(s) && AuthorizationsOk(s)
    requires CircuitChanges(s, t, g, row)
    ensures HistoryOk(t.history) && ClaimsOk(t) && WorkersOk(t) && AuthorizationsOk(t)
  {
    assert forall id | id in t.tables.intents && t.tables.intents[id].claim.Some? :: ClaimOk(s, id);
    assert forall token | token in t.workers :: WorkerOk(s, token);
    assert forall token | token in t.history.authorized :: AuthorizationOk(s, token);
  }

  /** The circuit of the active generation may change in any well-formed way. */
  lemma CircuitChangeKeeps(s: System, g: string, row: Authority, history: History)
    requires Inv(s) && s.tables.Active(g)
    requires row.retiredAt.None? && AuthorityRowOk(row, s.clock)
    requires history.issued >= s.history.issued
    requires history == s.history.(issued := history.issued, circuit := history.circuit)
    ensures Inv(s.(tables := s.tables.(authorities := s.tables.authorities[g := row]), history := history))
  {
    var t := s.(tables := s.tables.(authorities := s.tables.authorities[g := row]), history := history);
    CircuitChangeKeepsRows(s, t, g, row);
    CircuitChangeKeepsCalls(s, t, g, row);
  }

  lemma LeaseProbeKeeps(s: System, g: Gateway, token: Uuid, now: int)
    requires Inv(s)
    ensures Inv(Apply(s, LeaseProviderProbe(g, token, now)))
  {
    var t := Apply(s, LeaseProviderProbe(g, token, now));
    if now >= s.clock {
      TickKeeps(s, now);
      ConfigFacts(s.config);
      if t.tables != s.tables {
        CircuitChangeKeeps(s.(clock := now), g.generation, t.tables.authorities[g.generation], t.history);
      }
    }
  }

  lemma FinishProbeKeeps(s: System, g: Gateway, token: Uuid, version: int, available: bool, now: int)
    requires Inv(s)
    ensures Inv(Apply(s, FinishProviderProbe(g, token, version, available, now)))
  {
    var t := Apply(s, FinishProviderProbe(g, token, version, available, now));
    if t != s {
      TickKeeps(s, now);
      CircuitChangeKeeps(s.(clock := now), g.generation, t.tables.authorities[g.generation], t.history);
    }
  }

  /** Dropping expired fences. */
  lemma SweepKeeps(s: System)
    requires Inv(s)
    ensures Inv(s.(tables := s.tables.(fences := LiveFences(s.tables, s.clock))))
  {
    var t := s.(tables := s.tables.(fences := LiveFences(s.tables, s.clock)));
    forall token | token in t.history.authorized
      ensures AuthorizationOk(t, token)
    {
      assert AuthorizationOk(s, token);
      ConfigFacts(s.config);
    }
    assert forall h :: s.tables.Active(h) == t.tables.Active(h);
    forall id | id in t.tables.intents && t.tables.intents[id].claim.Some?
      ensures ClaimOk(t, id)
    {
      assert ClaimOk(s, id);
    }
  }

  /** With no fence left and the queue drained, which generation is active is free. */
  lemma DrainedAuthoritiesKeep(s: System, authorities: map<string, Authority>)
    requires Inv(s) && s.tables.fences == map[] && Drained(s.tables)
    requires AuthoritiesOk(authorities, s.clock)
    ensures Inv(s.(tables := s.tables.(authorities := authorities)))
  {
    var t := s.(tables := s.tables.(authorities := authorities));
    forall token | token in t.history.authorized
      ensures AuthorizationOk(t, token)
    {
      assert AuthorizationOk(s, token);
    }
    assert forall token | token in t.workers :: WorkerOk(s, token);
    assert forall id | id in t.tables.intents :: Terminal(t.tables.intents[id].status);
  }

  lemma SwitchKeeps(s: System, g: Gateway)
    requires Inv(s)
    requires s.tables.fences == map[] && Drained(s.tables) && g.generation !in s.tables.authorities
    ensures Inv(Apply(s, BindGeneration(g, s.clock)))
  {
    var t := Apply(s, BindGeneration(g, s.clock));
    if t != s {
      assert t.tables.fences == map[];
      DrainedAuthoritiesKeep(s, t.tables.authorities);
    }
  }

  lemma BindKeeps(s: System, g: Gateway, now: int)
    requires Inv(s)
    ensures Inv(Apply(s, BindGeneration(g, now)))
  {
    if now >= s.clock && Bind(s.tables, g, now).Committed? {
      TickKeeps(s, now);
      SweptBindKeeps(s.(clock := now), g);
    }
  }

  lemma SweptBindKeeps(s: System, g: Gateway)
    requires Inv(s)
    requires Bind(s.tables, g, s.clock).Committed?
    ensures Inv(Apply(s, BindGeneration(g, s.clock)))
  {
    if s.tables.Active(g.generation) {
      RebindKeeps(s, g);
    } else {
      SweepKeeps(s);
      SweepFirst(s, g);
      SwitchKeeps(s.(tables := s.tables.(fences := LiveFences(s.tables, s.clock))), g);
    }
  }

  lemma SweepFirst(s: System, g: Gateway)
    requires Bind(s.tables, g, s.clock).Committed? && !s.tables.Active(g.generation)
    ensures
      var swept := s.(tables := s.tables.(fences := LiveFences(s.tables, s.clock)));
      && swept.tables.fences == map[] && Drained(swept.tables) && g.generation !in swept.tables.authorities
      && Apply(s, BindGeneration(g, s.clock)) == Apply(swept, BindGeneration(g, s.clock))
  {
    var swept := s.(tables := s.tables.(fences := LiveFences(s.tables, s.clock)));
    assert LiveFences(s.tables, s.clock) == map[];
    assert LiveFences(swept.tables, s.clock) == map[];
  }

  lemma RebindKeeps(s: System, g: Gateway)
    requires Inv(s) && s.tables.Active(g.generation)
    requires Bind(s.tables, g, s.clock).Committed?
    ensures Inv(Apply(s, BindGeneration(g, s.clock)))
  {
    var swept := s.(tables := s.tables.(fences := LiveFences(s.tables, s.clock)));
    var row := Rebound(s.tables.authorities[g.generation], s.clock);
    SweepKeeps(s);
    assert AuthorityRowOk(s.tables.authorities[g.generation], s.clock);
    CircuitChangeKeeps(swept, g.generation, row, s.history);
  }

  /** A permitted revalidation authorizes a call whose fence is already in place. */
  lemma AuthorizeKeeps(s: System, token: Uuid)
    requires Inv(s) && token in s.workers
    requires Revalidate(s.tables, s.workers[token].attempt, s.clock, s.config).Permitted?
    ensures var a := s.workers[token].attempt;
            Inv(s.(history := s.history.(authorized := s.history.authorized[
                  token := Authorization(a.id, a.gateway.generation, a.number, a.effectDeadlineAt, s.clock,
                                         |s.history.resolutions|)])))
  {
    var a := s.workers[token].attempt;
    var t := s.(history := s.history.(authorized := s.history.authorized[
                  token := Authorization(a.id, a.gateway.generation, a.number, a.effectDeadlineAt, s.clock,
                                         |s.history.resolutions|)]));
    assert WorkerOk(s, token);
    assert ClaimOk(s, a.id);
    ConfigFacts(s.config);
    assert AuthorizationOk(t, token);
    forall other | other in t.history.authorized
      ensures AuthorizationOk(t, other)
    {
      if other != token {
        assert AuthorizationOk(s, other);
      }
    }
    forall id | id in t.tables.intents && t.tables.intents[id].claim.Some?
      ensures ClaimOk(t, id)
    {
      assert ClaimOk(s, id);
    }
    AuthorizationFrame(s, t);
  }

  /** The other invariants look at the authorizations only to find some. */
  lemma AuthorizationFrame(s: System, t: System)
    requires Inv(s) && AuthorizationsOk(t) && ClaimsOk(t)
    requires t == s.(history := s.history.(authorized := t.history.authorized))
    requires s.history.authorized.Keys <= t.history.authorized.Keys <= s.history.issued
    ensures Inv(t)
  {
  }

  /** What a preparation reached: possibly an authorization, and the next phase. */
  ghost function Authorized(s: System, token: Uuid, permission: Permission): System
    requires token in s.workers
  {
    var a := s.workers[token].attempt;
    if !permission.Permitted? then s
    else s.(history := s.history.(authorized := s.history.authorized[
           token := Authorization(a.id, a.gateway.generation, a.number, a.effectDeadlineAt, s.clock,
                                         |s.history.resolutions|)]))
  }

  ghost function Reached(resolution: Option<Resolution>): Phase {
    if resolution.None? then Calling else Answered(resolution.value, false)
  }

  lemma PrepareInStages(s: System, token: Uuid, now: int, failed: bool, unsealed: bool)
    requires now >= s.clock && token in s.workers && s.workers[token].phase.Held? && s.workers[token].attempt.permitted
    ensures
      var a := s.workers[token].attempt;
      var permission := if failed then PreparationFailed else Revalidate(s.tables, a, now, s.config);
      var phase := Reached(ResolutionWithoutCall(a, permission, unsealed));
      && (phase.Calling? ==> permission.Permitted?)
      && (phase.Answered? && phase.resolution.IsRetryable() ==> phase.resolution.PreservesAttemptNumber())
      && Apply(s, PrepareCall(token, now, failed, unsealed))
         == Authorized(s.(clock := now), token, permission).(workers := s.workers[token := Worker(a, phase)])
  {
  }

  lemma PrepareKeeps(s: System, token: Uuid, now: int, failed: bool, unsealed: bool)
    requires Inv(s)
    ensures Inv(Apply(s, PrepareCall(token, now, failed, unsealed)))
  {
    if now >= s.clock && token in s.workers && s.workers[token].phase.Held? {
      TickKeeps(s, now);
      assert WorkerOk(s, token);
      var a := s.workers[token].attempt;
      var permission := if failed then PreparationFailed else Revalidate(s.tables, a, now, s.config);
      PrepareInStages(s, token, now, failed, unsealed);
      if permission.Permitted? {
        AuthorizeKeeps(s.(clock := now), token);
      }
      PhaseChangeKeeps(Authorized(s.(clock := now), token, permission), token,
                       Reached(ResolutionWithoutCall(a, permission, unsealed)));
    }
  }

  /** An intent may always be rewritten to a well-formed row that holds no claim. */
  lemma UnclaimKeeps(s: System, id: Uuid, row: Intent)
    requires Inv(s) && id in s.tables.intents
    requires IntentOk(row, s.config, s.clock) && row.claim.None?
    requires !Terminal(row.status) ==> s.tables.Active(row.provider)
    ensures Inv(s.(tables := s.tables.(intents := s.tables.intents[id := row])))
  {
    var t := s.(tables := s.tables.(intents := s.tables.intents[id := row]));
    forall other | other in t.tables.intents && t.tables.intents[other].claim.Some?
      ensures ClaimOk(t, other)
    {
      assert ClaimOk(s, other);
    }
    forall token | token in t.workers
      ensures WorkerOk(t, token)
    {
      assert WorkerOk(s, token);
    }
  }

  ghost predicate ClaimsFresh(s: System, g: Gateway, target: ClaimTarget, id: Uuid, token: Uuid) {
    && token !in s.history.issued && id in s.tables.intents
    && Claimable(target, id, s.tables.intents[id], g.generation, s.clock)
    && var tx := Claim(s.tables, g, target, id, token, s.clock, s.clock, s.config);
       tx.Committed? && tx.reply.Claimed?
  }

  /** The claimed row is well formed, its number is allowed, and it matches the worker's copy. */
  lemma FreshClaimRow(s: System, g: Gateway, target: ClaimTarget, id: Uuid, token: Uuid)
    requires Inv(s) && ClaimsFresh(s, g, target, id, token)
    ensures
      var t := Apply(s, ClaimIntent(g, target, id, token, s.clock, s.clock));
      && ExtendsWell(s, t, id, token)
      && t.tables.intents[id].provider == s.tables.intents[id].provider == g.generation
  {
    var row := s.tables.intents[id];
    ConfigFacts(s.config);
    ClaimExtends(s, g, target, id, token);
    assert IntentOk(row, s.config, s.clock);
    if row.status.Processing? {
      assert ClaimOk(s, id);
    }
  }

  lemma ClaimExtends(s: System, g: Gateway, target: ClaimTarget, id: Uuid, token: Uuid)
    requires ClaimsFresh(s, g, target, id, token)
    ensures ExtendsByClaim(s, Apply(s, ClaimIntent(g, target, id, token, s.clock, s.clock)), id, token)
  {
  }

  /** A committed claim with a fresh token: row, fence and worker appear together. */
  lemma FreshClaimKeeps(s: System, g: Gateway, target: ClaimTarget, id: Uuid, token: Uuid)
    requires Inv(s) && ClaimsFresh(s, g, target, id, token)
    ensures Inv(Apply(s, ClaimIntent(g, target, id, token, s.clock, s.clock)))
  {
    var t := Apply(s, ClaimIntent(g, target, id, token, s.clock, s.clock));
    FreshClaimRow(s, g, target, id, token);
    ExtensionKeeps(s, t, id, token);
  }

  ghost predicate ExtendsWell(s: System, t: System, id: Uuid, token: Uuid) {
    && ExtendsByClaim(s, t, id, token)
    && t.tables.authorities == s.tables.authorities
    && var row := t.tables.intents[id];
       var a := t.workers[token].attempt;
       && IntentOk(row, s.config, s.clock)
       && s.tables.Active(row.provider)
       && s.clock < row.claim.value.expiresAt
       && t.tables.fences == s.tables.fences[token := Fence(row.provider, s.clock, row.claim.value.expiresAt)]
       && AttemptMatches(row, a, s.config)
       && a.permitted && 1 <= a.number <= s.config.retry.maxAttempts
       && (row.claim.value.source.ExplicitRetry? ==> id in t.history.explicitly)
  }

  lemma ExtensionKeepsRows(s: System, t: System, id: Uuid, token: Uuid)
    requires IntentsOk(s) && FencesOk(s) && ExtendsWell(s, t, id, token)
    ensures IntentsOk(t) && FencesOk(t)
  {
    assert forall h :: s.tables.Active(h) == t.tables.Active(h);
  }

  lemma ExtensionKeepsCalls(s: System, t: System, id: Uuid, token: Uuid)
    requires HistoryOk(s.history) && AuthorizationsOk(s) && ExtendsWell(s, t, id, token)
    ensures AuthorizationsOk(t)
  {
    forall other | other in t.history.authorized
      ensures AuthorizationOk(t, other)
    {
      assert AuthorizationOk(s, other) && other != token;
    }
  }

  lemma ExtensionKeeps(s: System, t: System, id: Uuid, token: Uuid)
    requires Inv(s) && ExtendsWell(s, t, id, token)
    ensures Inv(t)
  {
    ExtensionKeepsRows(s, t, id, token);
    ExtensionKeepsCalls(s, t, id, token);
    FreshClaimWorkers(s, t, id, token);
    FreshClaimClaims(s, t, id, token);
  }

  ghost predicate ExtendsByClaim(s: System, t: System, id: Uuid, token: Uuid) {
    && id in s.tables.intents && token !in s.history.issued
    && t.tables.intents.Keys == s.tables.intents.Keys
    && (forall other | other in s.tables.intents && other != id :: t.tables.intents[other] == s.tables.intents[other])
    && (forall other | other in s.tables.fences && other != token ::
          other in t.tables.fences && t.tables.fences[other] == s.tables.fences[other])
    && t.workers.Keys == s.workers.Keys + {token}
    && (forall other | other in s.workers && other != token :: t.workers[other] == s.workers[other])
    && t.workers[token].attempt.id == id && t.workers[token].attempt.token == token && t.workers[token].phase.Held?
    && t.config == s.config && t.clock == s.clock
    && t.tables.intents[id].claim.Some? && t.tables.intents[id].claim.value.token == token
    && t.history.issued == s.history.issued + {token}
    && t.history.explicitly >= s.history.explicitly
    && t.history == s.history.(issued := t.history.issued, explicitly := t.history.explicitly)
  }

  lemma FreshClaimWorkers(s: System, t: System, id: Uuid, token: Uuid)
    requires Inv(s) && ExtendsByClaim(s, t, id, token)
    requires t.workers[token].attempt.permitted
    requires 1 <= t.workers[token].attempt.number <= s.config.retry.maxAttempts
    requires AttemptMatches(t.tables.intents[id], t.workers[token].attempt, t.config)
    ensures WorkersOk(t)
  {
    forall other | other in t.workers
      ensures WorkerOk(t, other)
    {
      if other != token {
        assert WorkerOk(s, other);
      }
    }
  }

  lemma FreshClaimClaims(s: System, t: System, id: Uuid, token: Uuid)
    requires Inv(s) && ExtendsByClaim(s, t, id, token)
    requires t.tables.intents[id].claim.value.source.ExplicitRetry? ==> id in t.history.explicitly
    requires FencedUntil(t.tables, token, t.tables.intents[id].provider, t.tables.intents[id].claim.value.expiresAt)
    ensures ClaimsOk(t)
  {
    forall other | other in t.tables.intents && t.tables.intents[other].claim.Some?
      ensures ClaimOk(t, other)
    {
      if other != id {
        assert ClaimOk(s, other);
      }
      forall third | third in t.tables.intents && t.tables.intents[third].claim.Some? && third != id
        ensures t.tables.intents[third].claim.value.token != token
      {
        assert ClaimOk(s, third);
      }
    }
  }

  lemma ClaimKeeps(s: System, g: Gateway, target: ClaimTarget, id: Uuid, token: Uuid, now: int, claimedAt: int)
    requires Inv(s)
    ensures Inv(Apply(s, ClaimIntent(g, target, id, token, now, claimedAt)))
  {
    var t := Apply(s, ClaimIntent(g, target, id, token, now, claimedAt));
    if t != s {
      var row := s.tables.intents[id];
      TickKeeps(s, claimedAt);
      var ticked := s.(clock := claimedAt);
      assert IntentOk(row, s.config, s.clock);
      if row.credential !in s.tables.activeCredentials {
        UnclaimKeeps(ticked, id, CancelledRow(row, CredentialInactive, now));
      } else if OperabilityOf(s.tables, g).Operable? {
        FreshClaimKeeps(ticked, g, target, id, token);
        assert Claim(s.tables, g, target, id, token, now, claimedAt, s.config)
            == Claim(s.tables, g, target, id, token, claimedAt, claimedAt, s.config);
      }
    }
  }

  /** What a settled row looks like: terminal, or rescheduled strictly inside the credential's life. */
  lemma SettledRowOk(s: System, token: Uuid, entropy: nat)
    requires Inv(s) && token in s.workers && s.workers[token].phase.Answered?
    requires Holds(s.tables, s.workers[token].attempt)
    ensures var w := s.workers[token];
            var row := s.tables.intents[w.attempt.id];
            var settled := SettledRow(row, Settle(w.attempt, w.phase.resolution, s.clock, entropy, s.config), s.clock);
            && IntentOk(settled, s.config, s.clock)
            && (settled.status.RetryableFailed? ==> settled.nextAttemptAt.value > s.clock)
            && (settled.status.RetryableFailed? && !w.phase.resolution.PreservesAttemptNumber() ==>
                  !settled.code.value.PreInvocationResult?)
            && (settled.nextAttemptAt.Some? <==> settled.status.RetryableFailed?)
            && !settled.status.Queued? && !settled.status.Processing?
  {
    var w := s.workers[token];
    var a := w.attempt;
    var row := s.tables.intents[a.id];
    assert WorkerOk(s, token);
    assert IntentOk(row, s.config, s.clock);
    var next := Settle(a, w.phase.resolution, s.clock, entropy, s.config);
    if next.nextAttemptAt.Some? {
      RetryDelayIsExact(s.config.retry, a.number, next.resolution.RetryAfter(), entropy);
    }
  }

  /** Discarding a worker together with the fences its finalization releases. */
  lemma ReleaseKeeps(s: System, token: Uuid, uncertain: bool, batch: set<Uuid>)
    requires Inv(s) && token in s.workers && !Holds(s.tables, s.workers[token].attempt)
    requires AllExpired(s.tables.fences, s.clock, batch)
    ensures Inv(AfterRelease(s, token, uncertain, batch))
  {
    var t := AfterRelease(s, token, uncertain, batch);
    assert WorkerOk(s, token);
    assert forall h :: s.tables.Active(h) == t.tables.Active(h);
    forall id | id in t.tables.intents && t.tables.intents[id].claim.Some?
      ensures ClaimOk(t, id)
    {
      assert ClaimOk(s, id);
      assert s.tables.intents[id].status.Processing?;
    }
    forall other | other in t.workers
      ensures WorkerOk(t, other)
    {
      assert WorkerOk(s, other);
    }
    forall other | other in t.history.authorized
      ensures AuthorizationOk(t, other)
    {
      assert AuthorizationOk(s, other);
      ConfigFacts(s.config);
    }
  }

  lemma LogKeeps(s: System, e: ResolutionEvent)
    requires Inv(s) && e.token in s.history.issued
    requires forall id | id in s.tables.intents && s.tables.intents[id].claim.Some? ::
               s.tables.intents[id].claim.value.token != e.token
    requires forall k | 0 <= k < |s.history.resolutions| :: s.history.resolutions[k].token != e.token
    ensures Inv(s.(history := s.history.(resolutions := s.history.resolutions + [e])))
  {
    var t := s.(history := s.history.(resolutions := s.history.resolutions + [e]));
    forall id | id in t.tables.intents && t.tables.intents[id].claim.Some?
      ensures ClaimOk(t, id)
    {
      assert ClaimOk(s, id);
    }
  }

  /** The tables and the log once a finalization's compare-and-set has run. */
  ghost function AfterResolve(s: System, token: Uuid, entropy: nat): System
    requires token in s.workers && s.workers[token].phase.Answered?
  {
    var w := s.workers[token];
    var a := w.attempt;
    var tables := Resolve(s.tables, a, Settle(a, w.phase.resolution, s.clock, entropy, s.config), s.clock);
    if Holds(s.tables, a) then
      var e := ResolutionEvent(a.token, a.id, a.number, w.phase.invoked,
                               w.phase.invoked && w.phase.resolution.IsUncertain(),
                               tables.intents[a.id].nextAttemptAt.Some?);
      s.(tables := tables, history := s.history.(resolutions := s.history.resolutions + [e]))
    else s
  }

  lemma ResolveKeeps(s: System, token: Uuid, entropy: nat)
    requires Inv(s) && token in s.workers && s.workers[token].phase.Answered?
    ensures Inv(AfterResolve(s, token, entropy))
    ensures !Holds(AfterResolve(s, token, entropy).tables, s.workers[token].attempt)
  {
    var w := s.workers[token];
    var a := w.attempt;
    if Holds(s.tables, a) {
      var t := AfterResolve(s, token, entropy);
      var row := t.tables.intents[a.id];
      assert WorkerOk(s, token);
      assert ClaimOk(s, a.id);
      assert IntentOk(s.tables.intents[a.id], s.config, s.clock);
      SettledRowOk(s, token, entropy);
      UnclaimKeeps(s, a.id, row);
      LogKeeps(s.(tables := t.tables), t.history.resolutions[|s.history.resolutions|]);
    }
  }

  /** ... and once it has recorded an unavailable answer against the provider's circuit. */
  ghost function AfterObserve(s: System, w: Worker): System
    requires w.phase.Answered?
  {
    var g := w.attempt.gateway;
    var marked := RecordUnavailable(s.tables, g, w.attempt.id, s.clock);
    if w.phase.invoked && w.phase.resolution.SaysUnavailable() && marked.Some? then
      s.(tables := marked.value,
      history := s.history.(circuit := s.history.circuit
                                       + [Observed(g.generation,
                                                   s.tables.authorities[g.generation].circuitVersion + 1)]))
    else s
  }

  lemma ObserveKeeps(s: System, w: Worker)
    requires Inv(s) && w.phase.Answered?
    ensures Inv(AfterObserve(s, w))
    ensures AfterObserve(s, w).tables.intents == s.tables.intents
    ensures AfterObserve(s, w).tables.fences == s.tables.fences
    ensures AfterObserve(s, w).workers == s.workers && AfterObserve(s, w).clock == s.clock
  {
    var g := w.attempt.gateway.generation;
    var t := AfterObserve(s, w);
    if t.tables != s.tables {
      assert AuthorityRowOk(s.tables.authorities[g], s.clock);
      CircuitChangeKeeps(s, g, t.tables.authorities[g], t.history);
    }
  }

  ghost function AfterRelease(s: System, token: Uuid, uncertain: bool, batch: set<Uuid>): System
    requires token in s.workers
  {
    s.(workers := s.workers - {token},
    tables := s.tables.(fences := ReleasedFences(s.tables, s.workers[token].attempt, uncertain, batch)),
    history := s.history.(definitive := if uncertain then s.history.definitive else s.history.definitive + {token}))
  }

  ghost predicate Finalizes(s: System, token: Uuid, now: int, entropy: nat, batch: set<Uuid>) {
    && s.clock <= now && token in s.workers && s.workers[token].phase.Answered?
    && s.workers[token].attempt.token == token
    && AllExpired(s.tables.fences, now, batch)
    && Finalize(s.tables, s.workers[token].attempt, s.workers[token].phase.resolution, s.workers[token].phase.invoked,
                now, entropy, batch, s.config).Committed?
  }

  /** A committed finalization resolves, observes and releases, in this order. */
  lemma FinalizeInStages(s: System, token: Uuid, now: int, entropy: nat, batch: set<Uuid>)
    requires Finalizes(s, token, now, entropy, batch)
    ensures var w := s.workers[token];
            var resolved := AfterResolve(s.(clock := now), token, entropy);
            && AfterObserve(resolved, w).workers == s.workers
            && AfterObserve(resolved, w).tables.fences == s.tables.fences
            && Apply(s, FinalizeAttempt(token, now, entropy, batch))
               == AfterRelease(AfterObserve(resolved, w), token,
                               w.phase.invoked && w.phase.resolution.IsUncertain(), batch)
  {
  }

  /** A finalization that does not commit leaves tables and history alone. */
  lemma FinalizeSkips(s: System, token: Uuid, now: int, entropy: nat, batch: set<Uuid>)
    requires token in s.workers ==> s.workers[token].attempt.token == token
    requires !Finalizes(s, token, now, entropy, batch)
    ensures
      var t := Apply(s, FinalizeAttempt(token, now, entropy, batch));
      t == s || (s.clock <= now && t == Apply(s.(clock := now), Crash(token)))
  {
  }

  lemma FinalizeKeeps(s: System, token: Uuid, now: int, entropy: nat, batch: set<Uuid>)
    requires Inv(s)
    ensures Inv(Apply(s, FinalizeAttempt(token, now, entropy, batch)))
  {
    assert token in s.workers ==> WorkerOk(s, token);
    if Finalizes(s, token, now, entropy, batch) {
      CommittedFinalizeKeeps(s, token, now, entropy, batch);
    } else {
      FinalizeSkips(s, token, now, entropy, batch);
      if s.clock <= now {
        TickKeeps(s, now);
        CrashKeeps(s.(clock := now), token);
      }
    }
  }

  lemma CommittedFinalizeKeeps(s: System, token: Uuid, now: int, entropy: nat, batch: set<Uuid>)
    requires Inv(s) && Finalizes(s, token, now, entropy, batch)
    ensures Inv(Apply(s, FinalizeAttempt(token, now, entropy, batch)))
  {
    var w := s.workers[token];
    TickKeeps(s, now);
    FinalizeInStages(s, token, now, entropy, batch);
    ResolveKeeps(s.(clock := now), token, entropy);
    var resolved := AfterResolve(s.(clock := now), token, entropy);
    ObserveKeeps(resolved, w);
    ReleaseKeeps(AfterObserve(resolved, w), token, w.phase.invoked && w.phase.resolution.IsUncertain(), batch);
  }

  lemma StepKeeps(s: System, step: Step)
    requires Inv(s)
    ensures Inv(Apply(s, step))
  {
    match step
    case Tick(now) => TickKeeps(s, now);
    case SetCredential(c, active) => SetCredentialKeeps(s, c, active);
    case EnqueueIntent(g, id, c, expires, now) => EnqueueKeeps(s, g, id, c, expires, now);
    case CancelCredential(hash, reason, now) => CancelKeeps(s, hash, reason, now);
    case EraseIntents(ids) => EraseKeeps(s, ids);
    case ClaimIntent(g, target, id, token, now, claimedAt) => ClaimKeeps(s, g, target, id, token, now, claimedAt);
    case PrepareCall(token, now, failed, unsealed) => PrepareKeeps(s, token, now, failed, unsealed);
    case ProviderAnswers(token, outcome) => AnswerKeeps(s, token, outcome);
    case FinalizeAttempt(token, now, entropy, batch) => FinalizeKeeps(s, token, now, entropy, batch);
    case Crash(token) => CrashKeeps(s, token);
    case BindGeneration(g, now) => BindKeeps(s, g, now);
    case LeaseProviderProbe(g, token, now) => LeaseProbeKeeps(s, g, token, now);
    case FinishProviderProbe(g, token, version, available, now) =>
      FinishProbeKeeps(s, g, token, version, available, now);
  }

  lemma {:induction false} Reachable(config: WorkerConfig, clock: int, steps: seq<Step>)
    requires config.Valid()
    ensures Inv(Run(Init(config, clock), steps))
    decreases |steps|
  {
    if steps != [] {
      Reachable(config, clock, steps[..|steps| - 1]);
      StepKeeps(Run(Init(config, clock), steps[..|steps| - 1]), steps[|steps| - 1]);
    }
  }
}