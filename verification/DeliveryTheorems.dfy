/** What the delivery protocol guarantees over every run: any interleaving of enqueueing,
    claims, crashes, provider answers, finalizations, cancellations, erasures, probes and
    generation switches. */
module DeliveryTheorems {
  import opened Wrappers
  import opened DeliveryTiming
  import opened DeliveryTables
  import opened DeliveryProtocol
  import opened DeliverySafety
  import opened DeliveryAccounting

  ghost predicate IsReachable(s: System, config: WorkerConfig, clock: int, steps: seq<Step>) {
    config.Valid() && s == Run(Init(config, clock), steps)
  }

  lemma {:induction false} RunAppend(s: System, a: seq<Step>, b: seq<Step>)
    ensures Run(s, a + b) == Run(Run(s, a), b)
    decreases |b|
  {
    if b == [] {
      assert a + b == a;
    } else {
      RunAppend(s, a, b[..|b| - 1]);
      assert (a + b)[..|a + b| - 1] == a + b[..|b| - 1];
    }
  }

  lemma {:induction false} RunKeepsConfig(s: System, steps: seq<Step>)
    ensures Run(s, steps).config == s.config
    decreases |steps|
  {
    if steps != [] {
      RunKeepsConfig(s, steps[..|steps| - 1]);
    }
  }

  lemma ReachableFacts(s: System, config: WorkerConfig, clock: int, steps: seq<Step>)
    requires IsReachable(s, config, clock, steps)
    ensures Inv(s) && Accounts(s) && s.config == config
  {
    RunAccounts(config, clock, steps);
    RunKeepsConfig(Init(config, clock), steps);
  }

  /* -------------------------------- generations ------------------------------- */

  /** At most one generation is active, and every unfinished intent, every unexpired
      fence and every call that may still take effect belongs to it. */
  lemma OneGeneration(s: System, config: WorkerConfig, clock: int, steps: seq<Step>)
    requires IsReachable(s, config, clock, steps)
    ensures forall g, h | s.tables.Active(g) && s.tables.Active(h) :: g == h
    ensures forall id | id in s.tables.intents && !Terminal(s.tables.intents[id].status) ::
              s.tables.Active(s.tables.intents[id].provider)
    ensures forall token | token in s.tables.fences && !Expired(s.tables.fences[token], s.clock) ::
              s.tables.Active(s.tables.fences[token].generation)
    ensures forall token | Unresolved(s.history, token) && s.clock < s.history.authorized[token].deadline ::
              s.tables.Active(s.history.authorized[token].generation)
  {
    ReachableFacts(s, config, clock, steps);
    forall token | Unresolved(s.history, token) && s.clock < s.history.authorized[token].deadline
      ensures s.tables.Active(s.history.authorized[token].generation)
    {
      assert AuthorizationOk(s, token);
      ConfigFacts(config);
    }
  }

  /** A retained name keeps its fingerprint, never comes back from retirement, and its
      circuit version never falls. */
  ghost predicate Retains(before: map<string, Authority>, after: map<string, Authority>) {
    forall g | g in before ::
      && g in after
      && after[g].fingerprint == before[g].fingerprint && after[g].activatedAt == before[g].activatedAt
      && (before[g].retiredAt.Some? ==> after[g] == before[g])
      && before[g].circuitVersion <= after[g].circuitVersion
  }

  /** A step that changes a circuit or retires a generation raises that version. */
  ghost predicate RaisesVersions(before: map<string, Authority>, after: map<string, Authority>) {
    forall g | g in before && g in after ::
      (before[g].suspendedAt, before[g].observation, before[g].probe, before[g].retiredAt)
      != (after[g].suspendedAt, after[g].observation, after[g].probe, after[g].retiredAt)
      ==> before[g].circuitVersion < after[g].circuitVersion
  }

  /** A finalization leaves the authority rows alone or suspends the gateway's own. */
  lemma FinalizeAuthorities(s: System, token: Uuid, now: int, entropy: nat, batch: set<Uuid>)
    ensures
      var after := Apply(s, FinalizeAttempt(token, now, entropy, batch)).tables.authorities;
      after == s.tables.authorities
      || (&& token in s.workers
          && var g := s.workers[token].attempt.gateway.generation;
             s.tables.Active(g)
             && after == s.tables.authorities[g := SuspendedRow(s.tables.authorities[g], s.workers[token].attempt.id,
                                                                now)])
  {
  }

  lemma FinalizeRetains(s: System, token: Uuid, now: int, entropy: nat, batch: set<Uuid>)
    ensures
      var t := Apply(s, FinalizeAttempt(token, now, entropy, batch));
      && Retains(s.tables.authorities, t.tables.authorities)
      && RaisesVersions(s.tables.authorities, t.tables.authorities)
  {
    FinalizeAuthorities(s, token, now, entropy, batch);
  }

  lemma BindRetains(s: System, g: Gateway, now: int)
    ensures var t := Apply(s, BindGeneration(g, now));
            && Retains(s.tables.authorities, t.tables.authorities)
            && RaisesVersions(s.tables.authorities, t.tables.authorities)
  {
  }

  lemma StepRetains(s: System, step: Step)
    ensures Retains(s.tables.authorities, Apply(s, step).tables.authorities)
    ensures RaisesVersions(s.tables.authorities, Apply(s, step).tables.authorities)
  {
    match step {
      case FinalizeAttempt(token, now, entropy, batch) => FinalizeRetains(s, token, now, entropy, batch);
      case BindGeneration(g, now) => BindRetains(s, g, now);
      case LeaseProviderProbe(g, token, now) =>
      case FinishProviderProbe(g, token, version, available, now) =>
      case _ => CircuitUntouched(s, step);
    }
  }

  lemma {:induction false} GenerationsAreForever(s: System, later: seq<Step>)
    ensures Retains(s.tables.authorities, Run(s, later).tables.authorities)
    decreases |later|
  {
    if later != [] {
      GenerationsAreForever(s, later[..|later| - 1]);
      StepRetains(Run(s, later[..|later| - 1]), later[|later| - 1]);
    }
  }

  /** From its authorization to its effect deadline a call stays fenced, unless a
      definitive finalization of the very same token committed. */
  lemma CallsStayFenced(s: System, config: WorkerConfig, clock: int, steps: seq<Step>, token: Uuid)
    requires IsReachable(s, config, clock, steps)
    requires token in s.history.authorized && s.clock < s.history.authorized[token].deadline
    ensures token in s.history.definitive
            || FencedUntil(s.tables, token, s.history.authorized[token].generation,
                           s.history.authorized[token].deadline + config.budget.MarginSeconds())
  {
    ReachableFacts(s, config, clock, steps);
    assert AuthorizationOk(s, token);
  }

  /** Only a token's own finalization, and only one that is not an uncertain provider
      answer, makes it definitive. */
  lemma DefinitiveOnlyByOwnFinalization(s: System, step: Step, token: Uuid)
    requires token !in s.history.definitive && token in Apply(s, step).history.definitive
    requires forall other | other in s.workers :: s.workers[other].attempt.token == other
    ensures step.FinalizeAttempt? && step.token == token && token in s.workers
    ensures s.workers[token].phase.Answered?
    ensures !(s.workers[token].phase.invoked && s.workers[token].phase.resolution.IsUncertain())
  {
  }

  /** Only binding a different generation takes one out of service. */
  lemma OnlyBindRetires(s: System, step: Step, g: string)
    requires s.tables.Active(g) && !Apply(s, step).tables.Active(g)
    ensures step.BindGeneration? && step.gateway.generation != g
    ensures Apply(s, step).history == s.history
  {
    match step {
      case FinalizeAttempt(token, now, entropy, batch) => FinalizeKeepsActive(s, token, now, entropy, batch, g);
      case BindGeneration(_, _) =>
      case LeaseProviderProbe(_, _, _) =>
      case FinishProviderProbe(_, _, _, _, _) =>
      case _ => CircuitUntouched(s, step);
    }
  }

  lemma FinalizeKeepsActive(s: System, token: Uuid, now: int, entropy: nat, batch: set<Uuid>, g: string)
    requires s.tables.Active(g)
    ensures Apply(s, FinalizeAttempt(token, now, entropy, batch)).tables.Active(g)
  {
  }

  /** No run replaces a generation while an unresolved call can still take effect: at a
      switch, every effect deadline not settled by a definitive finalization has passed. */
  lemma NoSwitchWhileCallsMayTakeEffect(s: System, config: WorkerConfig, clock: int, steps: seq<Step>, step: Step,
                                        g: string)
    requires IsReachable(s, config, clock, steps)
    requires s.tables.Active(g) && !Apply(s, step).tables.Active(g)
    ensures step.BindGeneration? && step.gateway.generation != g
    ensures forall token | Unresolved(s.history, token) :: s.history.authorized[token].deadline <= Apply(s, step).clock
  {
    var t := Apply(s, step);
    OnlyBindRetires(s, step, g);
    assert steps + [step] != [] && (steps + [step])[..|steps + [step]| - 1] == steps;
    assert t == Run(Init(config, clock), steps + [step]);
    assert s.clock <= t.clock;
    OneGeneration(s, config, clock, steps);
    OneGeneration(t, config, clock, steps + [step]);
    StepRetains(s, step);
    forall token | Unresolved(s.history, token)
      ensures s.history.authorized[token].deadline <= t.clock
    {
      var h := s.history.authorized[token].generation;
      assert Unresolved(t.history, token);
      assert t.clock < s.history.authorized[token].deadline ==> s.tables.Active(h) && t.tables.Active(h);
    }
  }

  /* --------------------------------- resolution ------------------------------- */

  /** No claim token ever resolves two finalizations. */
  lemma TokensResolveOnce(s: System, config: WorkerConfig, clock: int, steps: seq<Step>, j: int, k: int)
    requires IsReachable(s, config, clock, steps)
    requires 0 <= j < |s.history.resolutions| && 0 <= k < |s.history.resolutions|
    requires s.history.resolutions[j].token == s.history.resolutions[k].token
    ensures j == k
  {
    ReachableFacts(s, config, clock, steps);
  }

  /** A worker that no longer holds its claim leaves every intent and the log alone. */
  lemma UnheldFinalizeChangesNothing(s: System, token: Uuid, now: int, entropy: nat, batch: set<Uuid>)
    requires token in s.workers && !Holds(s.tables, s.workers[token].attempt)
    ensures var t := Apply(s, FinalizeAttempt(token, now, entropy, batch));
            && t.tables.intents == s.tables.intents
            && t.history.resolutions == s.history.resolutions
  {
  }

  /** The intents a finalization leaves behind: only the row it holds can change. */
  lemma FinalizeEffect(s: System, token: Uuid, now: int, entropy: nat, batch: set<Uuid>)
    requires token in s.workers ==> s.workers[token].attempt.token == token
    ensures var t := Apply(s, FinalizeAttempt(token, now, entropy, batch));
            && t.history.enqueued == s.history.enqueued
            && (t.tables.intents == s.tables.intents
                || (&& Finalizes(s, token, now, entropy, batch)
                    && Holds(s.tables, s.workers[token].attempt)
                    && t.tables.intents == AfterResolve(s.(clock := now), token, entropy).tables.intents))
  {
    if Finalizes(s, token, now, entropy, batch) {
      FinalizeInStages(s, token, now, entropy, batch);
    }
  }

  ghost predicate Touches(s: System, step: Step, id: Uuid) {
    id in s.tables.intents
    && (id in Apply(s, step).tables.intents ==> Apply(s, step).tables.intents[id] != s.tables.intents[id])
  }

  lemma ClaimTouches(s: System, g: Gateway, target: ClaimTarget, wanted: Uuid, token: Uuid, now: int, claimedAt: int,
                     id: Uuid)
    requires Touches(s, ClaimIntent(g, target, wanted, token, now, claimedAt), id)
    ensures wanted == id && token !in s.history.issued
    ensures Claimable(target, id, s.tables.intents[id], g.generation, now)
  {
  }

  lemma FinalizeTouches(s: System, token: Uuid, now: int, entropy: nat, batch: set<Uuid>, id: Uuid)
    requires Touches(s, FinalizeAttempt(token, now, entropy, batch), id)
    requires token in s.workers ==> s.workers[token].attempt.token == token
    ensures s.tables.intents[id].claim.Some? && s.tables.intents[id].claim.value.token == token
  {
    FinalizeEffect(s, token, now, entropy, batch);
  }

  lemma QuietTouches(s: System, step: Step, id: Uuid)
    requires Touches(s, step, id) && !step.ClaimIntent? && !step.FinalizeAttempt?
    ensures match step
            case CancelCredential(hash, _, _) => hash == s.tables.intents[id].credential.hash
            case EraseIntents(ids) => id in ids
            case _ => false
  {
  }

  /** A processing row changes only through its own token's finalization, a recovery or
      reconciliation at or after the end of its lease, a cancellation, or an erasure. */
  lemma WhoMayChangeAClaimedIntent(s: System, config: WorkerConfig, clock: int, steps: seq<Step>, step: Step, id: Uuid)
    requires IsReachable(s, config, clock, steps)
    requires Touches(s, step, id) && s.tables.intents[id].status.Processing?
    ensures s.tables.intents[id].claim.Some?
    ensures var lease := s.tables.intents[id].claim.value;
            match step
            case FinalizeAttempt(token, _, _, _) => token == lease.token
            case ClaimIntent(_, _, wanted, token, now, _) =>
              wanted == id && lease.expiresAt <= now && token != lease.token
            case CancelCredential(hash, _, _) => hash == s.tables.intents[id].credential.hash
            case EraseIntents(ids) => id in ids
            case _ => false
  {
    ReachableFacts(s, config, clock, steps);
    assert IntentOk(s.tables.intents[id], config, s.clock);
    assert ClaimOk(s, id);
    match step {
      case FinalizeAttempt(token, now, entropy, batch) =>
        assert token in s.workers ==> WorkerOk(s, token);
        FinalizeTouches(s, token, now, entropy, batch, id);
      case ClaimIntent(g, target, wanted, token, now, claimedAt) =>
        ClaimTouches(s, g, target, wanted, token, now, claimedAt, id);
      case _ => QuietTouches(s, step, id);
    }
  }

  /** A finalization rewrites at most the row its worker holds, which it unclaims. */
  lemma FinalizeRows(s: System, token: Uuid, now: int, entropy: nat, batch: set<Uuid>)
    ensures
      var t := Apply(s, FinalizeAttempt(token, now, entropy, batch));
      && t.history.enqueued == s.history.enqueued && t.history.issued == s.history.issued
      && t.tables.intents.Keys == s.tables.intents.Keys
      && (|| t.tables.intents == s.tables.intents
          || (&& token in s.workers && Holds(s.tables, s.workers[token].attempt)
              && var id := s.workers[token].attempt.id;
                 && t.tables.intents == s.tables.intents[id := t.tables.intents[id]]
                 && t.tables.intents[id].claim.None?
                 && t.tables.intents[id].credential == s.tables.intents[id].credential))
  {
  }

  lemma TerminalFinalize(s: System, token: Uuid, now: int, entropy: nat, batch: set<Uuid>, id: Uuid)
    requires id in s.tables.intents ==> Terminal(s.tables.intents[id].status)
    ensures
      var t := Apply(s, FinalizeAttempt(token, now, entropy, batch));
      && t.history.enqueued == s.history.enqueued && t.tables.intents.Keys == s.tables.intents.Keys
      && (id in s.tables.intents ==> t.tables.intents[id] == s.tables.intents[id])
  {
    FinalizeRows(s, token, now, entropy, batch);
  }

  lemma TerminalClaim(s: System, g: Gateway, target: ClaimTarget, wanted: Uuid, token: Uuid, now: int, claimedAt: int,
                      id: Uuid)
    requires id in s.tables.intents ==> Terminal(s.tables.intents[id].status)
    ensures
      var t := Apply(s, ClaimIntent(g, target, wanted, token, now, claimedAt));
      && t.history.enqueued == s.history.enqueued && t.tables.intents.Keys == s.tables.intents.Keys
      && (id in s.tables.intents ==> t.tables.intents[id] == s.tables.intents[id])
  {
  }

  /** A finished intent is never touched again; only erasure can remove it. */
  lemma TerminalStep(s: System, step: Step, id: Uuid, row: Intent)
    requires Terminal(row.status) && id in s.history.enqueued
    requires id in s.tables.intents ==> s.tables.intents[id] == row
    ensures var t := Apply(s, step);
            && id in t.history.enqueued
            && (id in t.tables.intents ==> t.tables.intents[id] == row)
            && (id in s.tables.intents && !(step.EraseIntents? && id in step.ids) ==> id in t.tables.intents)
  {
    match step {
      case FinalizeAttempt(token, now, entropy, batch) => TerminalFinalize(s, token, now, entropy, batch, id);
      case ClaimIntent(g, target, wanted, token, now, claimedAt) =>
        TerminalClaim(s, g, target, wanted, token, now, claimedAt, id);
      case _ =>
    }
  }

  lemma {:induction false} TerminalForever(s: System, later: seq<Step>, id: Uuid, row: Intent)
    requires Terminal(row.status) && id in s.history.enqueued
    requires id in s.tables.intents ==> s.tables.intents[id] == row
    ensures var t := Run(s, later);
            && id in t.history.enqueued
            && (id in t.tables.intents ==> t.tables.intents[id] == row)
    decreases |later|
  {
    if later != [] {
      TerminalForever(s, later[..|later| - 1], id, row);
      TerminalStep(Run(s, later[..|later| - 1]), later[|later| - 1], id, row);
    }
  }

  /** Delivered, permanently failed and cancelled are absorbing over all continuations. */
  lemma TerminalIsAbsorbing(config: WorkerConfig, clock: int, steps: seq<Step>, later: seq<Step>, id: Uuid)
    requires config.Valid()
    requires var s := Run(Init(config, clock), steps); id in s.tables.intents && Terminal(s.tables.intents[id].status)
    ensures var s := Run(Init(config, clock), steps);
            var t := Run(Init(config, clock), steps + later);
            id in t.tables.intents ==> t.tables.intents[id] == s.tables.intents[id]
  {
    var s := Run(Init(config, clock), steps);
    ReachableFacts(s, config, clock, steps);
    RunAppend(Init(config, clock), steps, later);
    TerminalForever(s, later, id, s.tables.intents[id]);
  }

  /* ---------------------------------- circuit --------------------------------- */

  /** Every clearing of a suspension goes back to a probe of that generation that was
      still unexpired and was leased after every earlier observation or lease. */
  lemma ClearedOnlyByCurrentProbe(s: System, config: WorkerConfig, clock: int, steps: seq<Step>, k: int)
    requires IsReachable(s, config, clock, steps)
    requires 0 <= k < |s.history.circuit| && s.history.circuit[k].Cleared?
    ensures var c := s.history.circuit[k];
            exists j :: 0 <= j < k && s.history.circuit[j].ProbeLeased?
              && s.history.circuit[j].generation == c.generation && s.history.circuit[j].token == c.token
              && c.at < s.history.circuit[j].expiresAt
              && forall i | j < i < k :: s.history.circuit[i].generation != c.generation
  {
    ReachableFacts(s, config, clock, steps);
    assert ClearedProperly(s.history.circuit, k);
  }

  lemma FinalizeKeepsSuspension(s: System, token: Uuid, now: int, entropy: nat, batch: set<Uuid>, g: string)
    requires g in s.tables.authorities && s.tables.authorities[g].suspendedAt.Some?
    ensures
      var after := Apply(s, FinalizeAttempt(token, now, entropy, batch)).tables.authorities;
      g in after && after[g].suspendedAt.Some?
  {
  }

  /** A suspension of a generation that stays active ends only in such a clearing. */
  lemma SuspensionEndsInClearing(s: System, step: Step, g: string)
    requires s.tables.Active(g) && Apply(s, step).tables.Active(g)
    requires s.tables.authorities[g].suspendedAt.Some? && Apply(s, step).tables.authorities[g].suspendedAt.None?
    ensures var log := Apply(s, step).history.circuit;
            |log| == |s.history.circuit| + 1 && log[..|s.history.circuit|] == s.history.circuit
            && log[|s.history.circuit|].Cleared? && log[|s.history.circuit|].generation == g
  {
    match step {
      case FinalizeAttempt(token, now, entropy, batch) => FinalizeKeepsSuspension(s, token, now, entropy, batch, g);
      case BindGeneration(_, _) =>
      case LeaseProviderProbe(_, _, _) =>
      case FinishProviderProbe(_, _, _, _, _) =>
      case _ => CircuitUntouched(s, step);
    }
  }

  /** An observed unavailability commits exactly when the gateway still owns the active
      generation; it then leaves the provider suspended with no probe outstanding, whether
      or not the intent's own compare-and-set hit. Otherwise nothing at all is written. */
  lemma ObservedUnavailabilitySuspends(s: System, token: Uuid, now: int, entropy: nat, batch: set<Uuid>)
    requires s.clock <= now && token in s.workers && AllExpired(s.tables.fences, now, batch)
    requires var phase := s.workers[token].phase; phase.Answered? && phase.invoked && phase.resolution.SaysUnavailable()
    ensures var t := Apply(s, FinalizeAttempt(token, now, entropy, batch));
            var g := s.workers[token].attempt.gateway;
            if g.wellFormed && OwnsAuthority(s.tables, g) then
              && t.tables.Active(g.generation)
              && t.tables.authorities[g.generation].suspendedAt.Some?
              && t.tables.authorities[g.generation].suspendedAt.value >= now
              && t.tables.authorities[g.generation].probe.None?
              && t.tables.authorities[g.generation].circuitVersion
                == s.tables.authorities[g.generation].circuitVersion + 1
              && t.history.circuit
                == s.history.circuit + [Observed(g.generation, t.tables.authorities[g.generation].circuitVersion)]
            else t.tables == s.tables && t.history == s.history
  {
  }

  /* ---------------------------- attempts and retries -------------------------- */

  /** Attempt numbers: counts and call numbers stay in range, the count is exactly the
      number of finalized provider calls plus the open one, so pre-invocation failures and
      lease recoveries consume nothing, and no claim is ever refused its call. */
  lemma AttemptsAreAccountedFor(s: System, config: WorkerConfig, clock: int, steps: seq<Step>)
    requires IsReachable(s, config, clock, steps)
    ensures forall id | id in s.tables.intents ::
              && 0 <= s.tables.intents[id].attemptCount <= config.retry.maxAttempts
              && CountExact(s.tables.intents[id], InvokedCount(s.history.resolutions, id))
    ensures forall id: Uuid :: InvokedCount(s.history.resolutions, id) <= config.retry.maxAttempts
    ensures forall token | token in s.history.authorized ::
              1 <= s.history.authorized[token].number <= config.retry.maxAttempts
    ensures forall token | token in s.workers :: s.workers[token].attempt.permitted
  {
    ReachableFacts(s, config, clock, steps);
    assert forall token | token in s.history.authorized :: AuthorizationOk(s, token);
    assert forall token | token in s.workers :: WorkerOk(s, token);
  }

  /** Every reachable row meets the schema's shape, expiry, lifecycle and time checks. */
  lemma RowsMeetTheSchema(s: System, config: WorkerConfig, clock: int, steps: seq<Step>)
    requires IsReachable(s, config, clock, steps)
    ensures forall id | id in s.tables.intents :: MeetsSchema(s.tables.intents[id])
    ensures forall g | g in s.tables.authorities :: AuthorityRowOk(s.tables.authorities[g], s.clock)
    ensures forall token | token in s.tables.fences ::
            s.tables.fences[token].startedAt < s.tables.fences[token].expiresAt
  {
    ReachableFacts(s, config, clock, steps);
    assert forall id | id in s.tables.intents :: IntentOk(s.tables.intents[id], config, s.clock);
  }

  /** A rescheduled intent waits strictly inside its credential's life, and an intent no
      operator retried by hand is rescheduled fewer times than that life has seconds. */
  lemma RetryChainsAreFinite(s: System, config: WorkerConfig, clock: int, steps: seq<Step>)
    requires IsReachable(s, config, clock, steps)
    ensures forall id | id in s.tables.intents && s.tables.intents[id].status.RetryableFailed? ::
              var row := s.tables.intents[id];
              row.nextAttemptAt.Some? && row.updatedAt < row.nextAttemptAt.value < row.credentialExpiresAt
    ensures forall id | id in s.history.enqueued && id !in s.history.explicitly ::
              RescheduledCount(s.history.resolutions, id)
              < s.history.enqueued[id].credentialExpiresAt - s.history.enqueued[id].createdAt
  {
    ReachableFacts(s, config, clock, steps);
    assert forall id | id in s.tables.intents :: IntentOk(s.tables.intents[id], config, s.clock);
  }

  /** Where an intent that was waiting for `next` can be after automatic processing. */
  ghost predicate Advanced(t: Tables, id: Uuid, from: Intent, next: int) {
    id in t.intents ==>
      var row := t.intents[id];
      || row == from
      || Terminal(row.status)
      || (row.status.Processing? && next <= row.updatedAt)
      || (row.status.RetryableFailed? && row.nextAttemptAt.Some? && next < row.nextAttemptAt.value)
  }

  lemma AdvancedClaim(s: System, g: Gateway, target: ClaimTarget, wanted: Uuid, token: Uuid, now: int, claimedAt: int,
                      id: Uuid, from: Intent, next: int)
    requires Inv(s) && Advanced(s.tables, id, from, next)
    requires from.status.RetryableFailed? && from.nextAttemptAt == Some(next)
    requires !(wanted == id && target.Exactly?)
    ensures Advanced(Apply(s, ClaimIntent(g, target, wanted, token, now, claimedAt)).tables, id, from, next)
  {
    ClaimEffect(s, g, target, wanted, token, now, claimedAt);
    if id in s.tables.intents {
      assert IntentOk(s.tables.intents[id], s.config, s.clock);
    }
  }

  lemma AdvancedResolve(s: System, token: Uuid, entropy: nat, id: Uuid, from: Intent, next: int)
    requires Inv(s) && Advanced(s.tables, id, from, next) && from.status.RetryableFailed?
    requires token in s.workers && s.workers[token].phase.Answered?
    ensures Advanced(AfterResolve(s, token, entropy).tables, id, from, next)
  {
    if Holds(s.tables, s.workers[token].attempt) {
      SettledRowOk(s, token, entropy);
      assert IntentOk(s.tables.intents[s.workers[token].attempt.id], s.config, s.clock);
    }
  }

  lemma AdvancedFinalize(s: System, token: Uuid, now: int, entropy: nat, batch: set<Uuid>, id: Uuid, from: Intent,
                         next: int)
    requires Inv(s) && Advanced(s.tables, id, from, next)
    requires from.status.RetryableFailed?
    ensures Advanced(Apply(s, FinalizeAttempt(token, now, entropy, batch)).tables, id, from, next)
  {
    assert token in s.workers ==> WorkerOk(s, token);
    FinalizeEffect(s, token, now, entropy, batch);
    if Finalizes(s, token, now, entropy, batch) {
      TickKeeps(s, now);
      AdvancedResolve(s.(clock := now), token, entropy, id, from, next);
    }
  }

  lemma AdvancedStep(s: System, step: Step, id: Uuid, from: Intent, next: int)
    requires Inv(s) && id in s.history.enqueued && Advanced(s.tables, id, from, next)
    requires from.status.RetryableFailed? && from.nextAttemptAt == Some(next)
    requires !(step.ClaimIntent? && step.id == id && step.target.Exactly?)
    ensures Advanced(Apply(s, step).tables, id, from, next) && id in Apply(s, step).history.enqueued
  {
    match step {
      case ClaimIntent(g, target, wanted, token, now, claimedAt) =>
        AdvancedClaim(s, g, target, wanted, token, now, claimedAt, id, from, next);
      case FinalizeAttempt(token, now, entropy, batch) =>
        AdvancedFinalize(s, token, now, entropy, batch, id, from, next);
      case EnqueueIntent(_, _, _, _, _) =>
      case _ => QuietStepOnlyEnds(s, step);
    }
  }

  /** From one automatic retry to the next the remaining slack strictly shrinks: without
      an explicit retry, a later waiting time is strictly later. */
  lemma {:induction false} NextAttemptAdvances(s: System, later: seq<Step>, id: Uuid)
    requires Inv(s) && Accounts(s)
    requires id in s.tables.intents && s.tables.intents[id].status.RetryableFailed?
    requires forall k | 0 <= k < |later| ::
               !(later[k].ClaimIntent? && later[k].id == id && later[k].target.Exactly?)
    ensures var from := s.tables.intents[id];
            from.nextAttemptAt.Some? && Advanced(Run(s, later).tables, id, from, from.nextAttemptAt.value)
    ensures Inv(Run(s, later)) && Accounts(Run(s, later)) && id in Run(s, later).history.enqueued
    decreases |later|
  {
    var from := s.tables.intents[id];
    assert IntentOk(from, s.config, s.clock);
    if later != [] {
      var t := Run(s, later[..|later| - 1]);
      NextAttemptAdvances(s, later[..|later| - 1], id);
      AdvancedStep(t, later[|later| - 1], id, from, from.nextAttemptAt.value);
      StepKeeps(t, later[|later| - 1]);
      StepAccounts(t, later[|later| - 1]);
    }
  }

  /* ------------------------------- lease recovery ----------------------------- */

  /** Across a lease recovery the old call's effect window ends at least the margin
      before the new claim begins. */
  lemma RecoveryWindowsAreDisjoint(s: System, config: WorkerConfig, clock: int, steps: seq<Step>, step: Step, id: Uuid)
    requires IsReachable(s, config, clock, steps)
    requires step.ClaimIntent? && step.id == id && step.token in Apply(s, step).workers && step.token !in s.workers
    requires id in s.tables.intents && s.tables.intents[id].status.Processing?
    ensures s.tables.intents[id].claim.Some?
    ensures var lease := s.tables.intents[id].claim.value;
            && lease.expiresAt <= step.claimedAt
            && (lease.token in s.history.authorized ==>
                  s.history.authorized[lease.token].deadline + config.budget.MarginSeconds() <= step.claimedAt)
  {
    ReachableFacts(s, config, clock, steps);
    assert IntentOk(s.tables.intents[id], config, s.clock);
    assert ClaimOk(s, id);
  }

  /** While an attempt that meets its timeouts runs, its claim cannot be taken over, and
      a preparation made in time is not turned away by the clock. */
  lemma NotRecoverableMeanwhile(config: WorkerConfig, schedule: Schedule, reading: Nanos, row: Intent,
                                target: ClaimTarget, id: Uuid, generation: string)
    requires config.Valid() && BackToBack(config.budget, schedule) && reading <= schedule.finalized
    requires row.status.Processing? && row.claim.Some?
    requires row.claim.value.expiresAt == config.budget.ClaimExpiresAt(WholeSeconds(schedule.clockRead))
    ensures !Claimable(target, id, row, generation, WholeSeconds(reading))
    ensures WholeSeconds(reading) < config.budget.EffectDeadlineAt(row.claim.value.expiresAt)
  {
    LeaseCoversAttempt(config.budget, schedule, reading);
  }
}
