/** What a finalization leaves behind: the settled row, the provider's circuit, and the
    fences. */
module DeliveryOutcomes {
  import opened Basics
  import opened Wrappers
  import opened DeliveryTiming
  import opened DeliveryTables
  import opened DeliveryProtocol
  import opened DeliverySafety
  import opened DeliverySettlement
  import opened DeliveryTheorems

  /** The finalization of an answer commits unless it would have to record an unavailable
      provider for a generation that is no longer the gateway's. */
  lemma FinalizesExactly(s: System, token: Uuid, now: int, entropy: nat, batch: set<Uuid>)
    requires s.clock <= now && token in s.workers && s.workers[token].phase.Answered?
    requires s.workers[token].attempt.token == token && AllExpired(s.tables.fences, now, batch)
    ensures
      var (g, phase) := (s.workers[token].attempt.gateway, s.workers[token].phase);
      Finalizes(s, token, now, entropy, batch) <==>
        (phase.invoked && phase.resolution.SaysUnavailable() ==> g.wellFormed && OwnsAuthority(s.tables, g))
  {
  }

  /** The answers that tell of an unavailable provider, and those that leave it open whether
      the provider still acts. */
  lemma AnswersRead(r: Resolution)
    ensures r.SaysUnavailable() <==>
            || r == Outcome(RetryableFailure(ProviderUnavailable))
            || (r.Outcome? && r.outcome.RetryableFailureAfter? && r.outcome.code == ProviderUnavailable)
            || (r.Outcome? && r.outcome.UncertainFailure? && r.outcome.code == ProviderUnavailable)
    ensures r.IsUncertain() <==> r.Outcome? && r.outcome.UncertainFailure?
  {
  }

  /** A claim that is held settles its own row and no other: as ruled while its credential is
      active, with the waiting time that the answer, the attempt's number and the jitter give,
      and cancelled once it is not. The claim goes in every case. */
  lemma FinalizedRowIsExact(s: System, config: WorkerConfig, clock: int, steps: seq<Step>, token: Uuid, now: int,
                            entropy: nat, batch: set<Uuid>)
    requires IsReachable(s, config, clock, steps) && Finalizes(s, token, now, entropy, batch)
    requires Holds(s.tables, s.workers[token].attempt)
    ensures
      var w := s.workers[token];
      var id := w.attempt.id;
      var before := s.tables.intents[id];
      var t := Apply(s, FinalizeAttempt(token, now, entropy, batch));
      && id in t.tables.intents && t.tables.intents == s.tables.intents[id := t.tables.intents[id]]
      && var row := t.tables.intents[id];
         if before.credential !in s.tables.activeCredentials then IsCancelled(row, before, CredentialInactive, now)
         else
           var ruling := Ruling(w.attempt, w.phase.resolution, now, entropy, config);
           && SameIntent(row, before) && row.attemptCount == before.attemptCount && row.updatedAt == now
           && row.claim.None? && row.nextAttemptAt == ruling.nextAttemptAt && ReadsAs(row, ruling.resolution, now)
           && row.sealed == (before.sealed && !row.status.CancelledStatus?)
  {
    var w := s.workers[token];
    ReachableFacts(s, config, clock, steps);
    assert WorkerOk(s, token);
    FinalizeEffect(s, token, now, entropy, batch);
    SettlesAsRuled(w.attempt, w.phase.resolution, now, entropy, config);
    FinalizeInStages(s, token, now, entropy, batch);
  }

  /** The waiting time a finalization leaves on its row: the jittered delay below the doubling
      cap of this attempt's number, or what the provider asked for if that is longer, up to
      the maximum. */
  lemma WaitingTimeIsExact(s: System, config: WorkerConfig, clock: int, steps: seq<Step>, token: Uuid, now: int,
                           entropy: nat, batch: set<Uuid>)
    requires IsReachable(s, config, clock, steps) && Finalizes(s, token, now, entropy, batch)
    requires Holds(s.tables, s.workers[token].attempt)
    ensures
      var w := s.workers[token];
      var next := Apply(s, FinalizeAttempt(token, now, entropy, batch)).tables.intents[w.attempt.id].nextAttemptAt;
      var cap := IdealCap(config.retry, s.tables.intents[w.attempt.id].attemptCount);
      next.Some? ==>
        && cap > 0
        && next.value - now
           == Max(1 + entropy % cap, Min(Max(AskedFor(w.phase.resolution), 0), WholeSeconds(config.retry.max)))
  {
    var w := s.workers[token];
    assert w.attempt.number == s.tables.intents[w.attempt.id].attemptCount && config.Valid() by {
      ReachableFacts(s, config, clock, steps);
      assert WorkerOk(s, token);
    }
    CapIsIdeal(config.retry, w.attempt.number);
    FinalizedRowIsExact(s, config, clock, steps, token, now, entropy, batch);
  }

  /** Fences go in exactly two ways: an attempt's own once its answer leaves nothing open,
      and expired ones that the collection reaches. The others stay as they are. */
  lemma FencesReleasedExactly(s: System, token: Uuid, now: int, entropy: nat, batch: set<Uuid>)
    requires Finalizes(s, token, now, entropy, batch)
    ensures
      var w := s.workers[token];
      var after := Apply(s, FinalizeAttempt(token, now, entropy, batch)).tables.fences;
      var open := w.phase.invoked && w.phase.resolution.IsUncertain();
      && (forall other | other in after :: other in s.tables.fences && after[other] == s.tables.fences[other])
      && (forall other | other in s.tables.fences && other !in after ::
            other == token || (other in batch && s.tables.fences[other].expiresAt <= now))
      && (token in s.tables.fences && token !in batch ==>
            (token !in after <==> !open && s.tables.fences[token].generation == w.attempt.gateway.generation))
      && batch !! after.Keys
  {
    FinalizeInStages(s, token, now, entropy, batch);
  }

  /** The collection takes the oldest expired fences: none that expired before one of them is
      left, and nothing expired is left at all unless a whole batch was taken. */
  lemma CollectsOldestFirst(fences: map<Uuid, Fence>, now: int, batch: set<Uuid>)
    requires IsCollected(fences, now, batch)
    ensures |batch| <= FENCE_GC_BATCH
    ensures forall token | token in batch :: token in fences && fences[token].expiresAt <= now
    ensures forall token, other | && token in batch && other in fences
                                  && fences[other].expiresAt < fences[token].expiresAt ::
              other in batch
    ensures |batch| < FENCE_GC_BATCH ==>
              forall other | other in fences && fences[other].expiresAt <= now :: other in batch
  {
  }

  /** An unavailable answer suspends the provider at the later of this and an earlier
      observation, keeps the later one's name, and calls off any probe. Nothing else about the
      authority changes, and other generations not at all. */
  lemma SuspendsExactly(s: System, token: Uuid, now: int, entropy: nat, batch: set<Uuid>)
    requires Finalizes(s, token, now, entropy, batch)
    ensures
      var w := s.workers[token];
      var g := w.attempt.gateway.generation;
      var after := Apply(s, FinalizeAttempt(token, now, entropy, batch)).tables.authorities;
      if !(w.phase.invoked && w.phase.resolution.SaysUnavailable()) then after == s.tables.authorities
      else
        && g in s.tables.authorities && g in after && after == s.tables.authorities[g := after[g]]
        && var (row, before) := (after[g], s.tables.authorities[g]);
           && row.suspendedAt == Some(if before.suspendedAt.Some? then Max(before.suspendedAt.value, now) else now)
           && row.observation == (if before.suspendedAt.Some? && now < before.suspendedAt.value then before.observation
                                  else Some(w.attempt.id))
           && row.probe.None? && row.circuitVersion == before.circuitVersion + 1
           && row.fingerprint == before.fingerprint && row.activatedAt == before.activatedAt
           && row.lastBoundAt == before.lastBoundAt && row.retiredAt.None?
  {
    FinalizeInStages(s, token, now, entropy, batch);
  }
}
