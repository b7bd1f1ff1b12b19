/** What the history of a run adds up to: attempt numbers, retry chains and circuit versions. */
module DeliveryAccounting {
  import opened Wrappers
  import opened DeliveryTables
  import opened DeliveryProtocol
  import opened DeliverySafety

  /* ------------------------------ attempt numbers ----------------------------- */

  /** How many finalized attempts of this intent had called the provider. */
  ghost function InvokedCount(log: seq<ResolutionEvent>, id: Uuid): nat {
    if log == [] then 0
    else
      var last := log[|log| - 1];
      InvokedCount(log[..|log| - 1], id) + if last.id == id && last.invoked then 1 else 0
  }

  /** How many finalizations rescheduled this intent. */
  ghost function RescheduledCount(log: seq<ResolutionEvent>, id: Uuid): nat {
    if log == [] then 0
    else
      var last := log[|log| - 1];
      RescheduledCount(log[..|log| - 1], id) + if last.id == id && last.rescheduled then 1 else 0
  }

  lemma CountsAppend(log: seq<ResolutionEvent>, e: ResolutionEvent, id: Uuid)
    ensures InvokedCount(log + [e], id) == InvokedCount(log, id) + if e.id == id && e.invoked then 1 else 0
    ensures RescheduledCount(log + [e], id) == RescheduledCount(log, id) + if e.id == id && e.rescheduled then 1 else 0
  {
    assert (log + [e])[..|log|] == log;
  }

  lemma {:induction false} CountsOfStranger(log: seq<ResolutionEvent>, id: Uuid)
    requires forall k | 0 <= k < |log| :: log[k].id != id
    ensures InvokedCount(log, id) == 0 && RescheduledCount(log, id) == 0
    decreases |log|
  {
    if log != [] {
      CountsOfStranger(log[..|log| - 1], id);
    }
  }

  /** The row is using a number that no finalized provider call has used yet. */
  ghost predicate NumberOpen(row: Intent) {
    row.status.Processing? || (row.status.RetryableFailed? && KeepsAttemptNumber(row))
  }

  /** An attempt count is exactly the number of finalized provider calls, plus the open one. */
  ghost predicate CountExact(row: Intent, invoked: nat) {
    if Terminal(row.status) then invoked <= row.attemptCount <= invoked + 1
    else row.attemptCount == invoked + if NumberOpen(row) then 1 else 0
  }

  /* -------------------------------- retry chains ------------------------------ */

  /** For an intent no operator touched, each rescheduling moved its clock forward. */
  ghost predicate ChainAdvances(row: Intent, rescheduled: nat) {
    match row.status
    case Queued => rescheduled == 0
    case Processing => row.createdAt + rescheduled <= row.updatedAt
    case RetryableFailed => row.nextAttemptAt.Some? && row.createdAt + rescheduled <= row.nextAttemptAt.value
    case _ => true
  }

  /* ---------------------------------- circuit --------------------------------- */

  ghost predicate WasLeased(circuit: seq<CircuitEvent>, upTo: int, e: CircuitEvent) {
    exists j :: 0 <= j < upTo && j < |circuit| && circuit[j] == e
  }

  ghost predicate ClearedProperly(circuit: seq<CircuitEvent>, k: int)
    requires 0 <= k < |circuit| && circuit[k].Cleared?
  {
    var c := circuit[k];
    exists j :: 0 <= j < k && circuit[j].ProbeLeased? && circuit[j].generation == c.generation
      && circuit[j].version == c.version - 1 && circuit[j].token == c.token && c.at < circuit[j].expiresAt
  }

  ghost predicate CircuitOk(circuit: seq<CircuitEvent>, authorities: map<string, Authority>) {
    && (forall k | 0 <= k < |circuit| ::
          circuit[k].generation in authorities
            && circuit[k].version <= authorities[circuit[k].generation].circuitVersion)
    && (forall j, k | 0 <= j < k < |circuit| && circuit[j].generation == circuit[k].generation ::
          circuit[j].version < circuit[k].version)
    && (forall g | g in authorities && authorities[g].probe.Some? ::
          WasLeased(circuit, |circuit|, ProbeLeased(g, authorities[g].circuitVersion, authorities[g].probe.value.token,
                                                    authorities[g].probe.value.expiresAt)))
    && (forall k | 0 <= k < |circuit| && circuit[k].Cleared? :: ClearedProperly(circuit, k))
  }

  /* --------------------------------- invariant -------------------------------- */

  ghost predicate EnqueuedOk(s: System) {
    && (forall id | id in s.tables.intents ::
          && id in s.history.enqueued
          && s.history.enqueued[id]
            == Enqueued(s.tables.intents[id].createdAt, s.tables.intents[id].credentialExpiresAt))
    && (forall k | 0 <= k < |s.history.resolutions| :: s.history.resolutions[k].id in s.history.enqueued)
    && (forall id | id in s.history.enqueued ::
          s.history.enqueued[id].createdAt < s.history.enqueued[id].credentialExpiresAt)
  }

  ghost predicate AttemptsOk(s: System) {
    && (forall id | id in s.tables.intents :: CountExact(s.tables.intents[id], InvokedCount(s.history.resolutions, id)))
    && (forall id: Uuid :: InvokedCount(s.history.resolutions, id) <= s.config.retry.maxAttempts)
  }

  ghost predicate RetriesOk(s: System) {
    forall id | id in s.history.enqueued && id !in s.history.explicitly ::
      var n := RescheduledCount(s.history.resolutions, id);
      && s.history.enqueued[id].createdAt + n < s.history.enqueued[id].credentialExpiresAt
      && (id in s.tables.intents ==> ChainAdvances(s.tables.intents[id], n))
  }

  ghost predicate Accounts(s: System) {
    && EnqueuedOk(s) && AttemptsOk(s) && RetriesOk(s)
    && CircuitOk(s.history.circuit, s.tables.authorities)
  }

  /* ---------------------------- every step keeps it --------------------------- */

  /** Rows only disappear, stay, or end with their number and dates unchanged. */
  ghost predicate OnlyEnds(before: map<Uuid, Intent>, after: map<Uuid, Intent>) {
    forall id | id in after ::
      && id in before
      && (after[id] == before[id]
          || (&& Terminal(after[id].status) && after[id].attemptCount == before[id].attemptCount
              && after[id].createdAt == before[id].createdAt
              && after[id].credentialExpiresAt == before[id].credentialExpiresAt))
  }

  lemma OnlyEndsAccounts(s: System, t: System)
    requires EnqueuedOk(s) && AttemptsOk(s) && RetriesOk(s)
    requires OnlyEnds(s.tables.intents, t.tables.intents)
    requires t.config == s.config
    requires t.history.resolutions == s.history.resolutions && t.history.enqueued == s.history.enqueued
    requires t.history.explicitly == s.history.explicitly
    ensures EnqueuedOk(t) && AttemptsOk(t) && RetriesOk(t)
  {
  }

  lemma QuietStepAccounts(s: System, step: Step)
    requires EnqueuedOk(s) && AttemptsOk(s) && RetriesOk(s)
    requires !step.FinalizeAttempt? && !step.ClaimIntent? && !step.EnqueueIntent?
    ensures EnqueuedOk(Apply(s, step)) && AttemptsOk(Apply(s, step)) && RetriesOk(Apply(s, step))
  {
    QuietStepOnlyEnds(s, step);
    OnlyEndsAccounts(s, Apply(s, step));
  }

  lemma QuietStepOnlyEnds(s: System, step: Step)
    requires !step.FinalizeAttempt? && !step.ClaimIntent? && !step.EnqueueIntent?
    ensures var t := Apply(s, step);
            && OnlyEnds(s.tables.intents, t.tables.intents)
            && t.config == s.config
            && t.history.resolutions == s.history.resolutions && t.history.enqueued == s.history.enqueued
            && t.history.explicitly == s.history.explicitly
  {
  }

  lemma EnqueueAccounts(s: System, step: Step)
    requires Inv(s) && EnqueuedOk(s) && AttemptsOk(s) && RetriesOk(s)
    requires step.EnqueueIntent?
    ensures EnqueuedOk(Apply(s, step)) && AttemptsOk(Apply(s, step)) && RetriesOk(Apply(s, step))
  {
    if step.id !in s.history.enqueued {
      CountsOfStranger(s.history.resolutions, step.id);
    }
  }

  /** A claim opens a fresh number, or takes over the one that is open. */
  lemma ClaimedRowAccounts(s: System, g: Gateway, target: ClaimTarget, id: Uuid, token: Uuid, now: int, claimedAt: int,
                           invoked: nat, rescheduled: nat)
    requires Inv(s) && id in s.tables.intents && s.clock <= now <= claimedAt
    requires Claimable(target, id, s.tables.intents[id], g.generation, now)
    requires CountExact(s.tables.intents[id], invoked)
    ensures var claimed := ClaimedRow(s.tables.intents[id], token, ProvenanceOf(target, s.tables.intents[id]),
                                      claimedAt, s.config);
            && CountExact(claimed, invoked)
            && (!target.Exactly? && ChainAdvances(s.tables.intents[id], rescheduled) ==>
                ChainAdvances(claimed, rescheduled))
  {
    assert IntentOk(s.tables.intents[id], s.config, s.clock);
  }

  /** What a claim step can do: nothing, end the row, or put a fresh claim on it. */
  lemma ClaimEffect(s: System, g: Gateway, target: ClaimTarget, id: Uuid, token: Uuid, now: int, claimedAt: int)
    ensures var t := Apply(s, ClaimIntent(g, target, id, token, now, claimedAt));
            && t.config == s.config
            && t.history.resolutions == s.history.resolutions && t.history.enqueued == s.history.enqueued
            && (|| (t.history.explicitly == s.history.explicitly && OnlyEnds(s.tables.intents, t.tables.intents))
                || (&& s.clock <= now <= claimedAt && id in s.tables.intents
                    && Claimable(target, id, s.tables.intents[id], g.generation, now)
                    && t.history.explicitly
                      == (if target.Exactly? then s.history.explicitly + {id} else s.history.explicitly)
                    && t.tables.intents == s.tables.intents[id :=
                         ClaimedRow(s.tables.intents[id], token, ProvenanceOf(target, s.tables.intents[id]), claimedAt,
                                    s.config)]))
  {
  }

  lemma ClaimAccounts(s: System, g: Gateway, target: ClaimTarget, id: Uuid, token: Uuid, now: int, claimedAt: int)
    requires Inv(s) && EnqueuedOk(s) && AttemptsOk(s) && RetriesOk(s)
    ensures var t := Apply(s, ClaimIntent(g, target, id, token, now, claimedAt));
            EnqueuedOk(t) && AttemptsOk(t) && RetriesOk(t)
  {
    var t := Apply(s, ClaimIntent(g, target, id, token, now, claimedAt));
    ClaimEffect(s, g, target, id, token, now, claimedAt);
    if OnlyEnds(s.tables.intents, t.tables.intents) && t.history.explicitly == s.history.explicitly {
      OnlyEndsAccounts(s, t);
    } else {
      var log := s.history.resolutions;
      ClaimedRowAccounts(s, g, target, id, token, now, claimedAt, InvokedCount(log, id), RescheduledCount(log, id));
      ClaimFrame(s, t, target, id);
    }
  }

  lemma ClaimFrame(s: System, t: System, target: ClaimTarget, id: Uuid)
    requires EnqueuedOk(s) && AttemptsOk(s) && RetriesOk(s)
    requires id in s.tables.intents && id in t.tables.intents
    requires t.tables.intents == s.tables.intents[id := t.tables.intents[id]]
    requires CountExact(t.tables.intents[id], InvokedCount(s.history.resolutions, id))
    requires !target.Exactly? && ChainAdvances(s.tables.intents[id], RescheduledCount(s.history.resolutions, id)) ==>
               ChainAdvances(t.tables.intents[id], RescheduledCount(s.history.resolutions, id))
    requires Enqueued(t.tables.intents[id].createdAt, t.tables.intents[id].credentialExpiresAt)
             == s.history.enqueued[id]
    requires t.config == s.config
    requires t.history.resolutions == s.history.resolutions && t.history.enqueued == s.history.enqueued
    requires t.history.explicitly == if target.Exactly? then s.history.explicitly + {id} else s.history.explicitly
    ensures EnqueuedOk(t) && AttemptsOk(t) && RetriesOk(t)
  {
  }

  /** The resolved row after one finalization, against the counts that include it. */
  lemma ResolvedRowAccounts(s: System, token: Uuid, entropy: nat, invoked: nat, rescheduled: nat)
    requires Inv(s) && token in s.workers && s.workers[token].phase.Answered?
    requires Holds(s.tables, s.workers[token].attempt)
    requires CountExact(s.tables.intents[s.workers[token].attempt.id], invoked)
    ensures var w := s.workers[token];
            var row := AfterResolve(s, token, entropy).tables.intents[w.attempt.id];
            var before := s.tables.intents[w.attempt.id];
            var calls := invoked + if w.phase.invoked then 1 else 0;
            && CountExact(row, calls) && calls <= s.config.retry.maxAttempts
            && row.createdAt == before.createdAt && row.credentialExpiresAt == before.credentialExpiresAt
            && (row.nextAttemptAt.Some? ==>
                row.status.RetryableFailed? && row.nextAttemptAt.value < row.credentialExpiresAt)
            && (ChainAdvances(before, rescheduled) ==>
                  ChainAdvances(row, rescheduled + if row.nextAttemptAt.Some? then 1 else 0))
  {
    var w := s.workers[token];
    assert WorkerOk(s, token);
    assert IntentOk(s.tables.intents[w.attempt.id], s.config, s.clock);
    SettledRowOk(s, token, entropy);
  }

  lemma ResolveAccounts(s: System, token: Uuid, entropy: nat)
    requires Inv(s) && token in s.workers && s.workers[token].phase.Answered?
    requires EnqueuedOk(s) && AttemptsOk(s) && RetriesOk(s)
    ensures var t := AfterResolve(s, token, entropy);
            EnqueuedOk(t) && AttemptsOk(t) && RetriesOk(t)
  {
    var a := s.workers[token].attempt;
    if Holds(s.tables, a) {
      var t := AfterResolve(s, token, entropy);
      var log := s.history.resolutions;
      ResolvedRowAccounts(s, token, entropy, InvokedCount(log, a.id), RescheduledCount(log, a.id));
      forall id: Uuid {
        CountsAppend(log, t.history.resolutions[|log|], id);
      }
      ResolveFrame(s, t, a.id, t.history.resolutions[|log|]);
    }
  }

  lemma ResolveFrame(s: System, t: System, id: Uuid, e: ResolutionEvent)
    requires EnqueuedOk(s) && AttemptsOk(s) && RetriesOk(s)
    requires id in s.tables.intents && id in t.tables.intents && e.id == id
    requires t.tables.intents == s.tables.intents[id := t.tables.intents[id]]
    requires Enqueued(t.tables.intents[id].createdAt, t.tables.intents[id].credentialExpiresAt)
             == s.history.enqueued[id]
    requires t.config == s.config
    requires t.history.resolutions == s.history.resolutions + [e]
    requires t.history.enqueued == s.history.enqueued && t.history.explicitly == s.history.explicitly
    requires var calls := InvokedCount(t.history.resolutions, id);
             CountExact(t.tables.intents[id], calls) && calls <= t.config.retry.maxAttempts
    requires forall other: Uuid | other != id ::
               && InvokedCount(t.history.resolutions, other) == InvokedCount(s.history.resolutions, other)
               && RescheduledCount(t.history.resolutions, other) == RescheduledCount(s.history.resolutions, other)
    requires var n := RescheduledCount(t.history.resolutions, id);
             && (n == RescheduledCount(s.history.resolutions, id)
                 || (t.tables.intents[id].nextAttemptAt.Some? && t.tables.intents[id].status.RetryableFailed?
                     && t.tables.intents[id].nextAttemptAt.value < t.tables.intents[id].credentialExpiresAt))
             && (ChainAdvances(s.tables.intents[id], RescheduledCount(s.history.resolutions, id)) ==>
                   ChainAdvances(t.tables.intents[id], n))
    ensures EnqueuedOk(t) && AttemptsOk(t) && RetriesOk(t)
  {
    assert EnqueuedOk(t);
    assert AttemptsOk(t);
    forall other | other in t.history.enqueued && other !in t.history.explicitly && other != id
      ensures RescheduledCount(t.history.resolutions, other) == RescheduledCount(s.history.resolutions, other)
    {
    }
    assert RetriesOk(t);
  }

  lemma FinalizeAccounts(s: System, token: Uuid, now: int, entropy: nat, batch: set<Uuid>)
    requires Inv(s) && EnqueuedOk(s) && AttemptsOk(s) && RetriesOk(s)
    ensures var t := Apply(s, FinalizeAttempt(token, now, entropy, batch));
            EnqueuedOk(t) && AttemptsOk(t) && RetriesOk(t)
  {
    assert token in s.workers ==> WorkerOk(s, token);
    if Finalizes(s, token, now, entropy, batch) {
      TickKeeps(s, now);
      QuietStepAccounts(s, Tick(now));
      ResolveAccounts(s.(clock := now), token, entropy);
      FinalizeInStages(s, token, now, entropy, batch);
      OnlyEndsAccounts(AfterResolve(s.(clock := now), token, entropy),
                       Apply(s, FinalizeAttempt(token, now, entropy, batch)));
    } else {
      FinalizeSkips(s, token, now, entropy, batch);
      OnlyEndsAccounts(s, Apply(s, FinalizeAttempt(token, now, entropy, batch)));
    }
  }

  /* ------------------------------ circuit versions ---------------------------- */

  /** Appending an event whose version the row of its generation has just reached. */
  lemma CircuitAppends(circuit: seq<CircuitEvent>, authorities: map<string, Authority>, e: CircuitEvent, row: Authority)
    requires CircuitOk(circuit, authorities) && e.generation in authorities
    requires e.version == row.circuitVersion == authorities[e.generation].circuitVersion + 1
    requires row.probe.Some? ==>
             e == ProbeLeased(e.generation, row.circuitVersion, row.probe.value.token, row.probe.value.expiresAt)
    requires e.Cleared? ==> ClearedProperly(circuit + [e], |circuit|)
    ensures CircuitOk(circuit + [e], authorities[e.generation := row])
  {
    var events := circuit + [e];
    var rows := authorities[e.generation := row];
    assert events[|circuit|] == e;
    forall g | g in rows && rows[g].probe.Some?
      ensures WasLeased(events, |events|,
                        ProbeLeased(g, rows[g].circuitVersion, rows[g].probe.value.token,
                                    rows[g].probe.value.expiresAt))
    {
      if g != e.generation {
        var j :| 0 <= j < |circuit| && circuit[j] == ProbeLeased(g, rows[g].circuitVersion, rows[g].probe.value.token,
                                                                 rows[g].probe.value.expiresAt);
        assert events[j] == circuit[j];
      }
    }
    forall k | 0 <= k < |events| && events[k].Cleared?
      ensures ClearedProperly(events, k)
    {
      if k < |circuit| {
        assert ClearedProperly(circuit, k);
        var c := circuit[k];
        var j :| 0 <= j < k && circuit[j].ProbeLeased? && circuit[j].generation == c.generation
          && circuit[j].version == c.version - 1 && circuit[j].token == c.token && c.at < circuit[j].expiresAt;
        assert events[j] == circuit[j];
      }
    }
  }

  lemma LeaseProbeCircuit(s: System, g: Gateway, token: Uuid, now: int)
    requires CircuitOk(s.history.circuit, s.tables.authorities)
    ensures var t := Apply(s, LeaseProviderProbe(g, token, now)); CircuitOk(t.history.circuit, t.tables.authorities)
  {
    var t := Apply(s, LeaseProviderProbe(g, token, now));
    if t.history.circuit != s.history.circuit {
      CircuitAppends(s.history.circuit, s.tables.authorities, t.history.circuit[|s.history.circuit|],
                     t.tables.authorities[g.generation]);
    }
  }

  lemma FinishProbeCircuit(s: System, g: Gateway, token: Uuid, version: int, available: bool, now: int)
    requires CircuitOk(s.history.circuit, s.tables.authorities)
    ensures var t := Apply(s, FinishProviderProbe(g, token, version, available, now));
            CircuitOk(t.history.circuit, t.tables.authorities)
  {
    var t := Apply(s, FinishProviderProbe(g, token, version, available, now));
    if t.history.circuit != s.history.circuit {
      var circuit := s.history.circuit;
      var row := s.tables.authorities[g.generation];
      var leased := ProbeLeased(g.generation, row.circuitVersion, row.probe.value.token, row.probe.value.expiresAt);
      assert WasLeased(circuit, |circuit|, leased);
      var j :| 0 <= j < |circuit| && circuit[j] == leased;
      assert t.history.circuit[j] == leased;
      CircuitAppends(circuit, s.tables.authorities, t.history.circuit[|circuit|], t.tables.authorities[g.generation]);
    }
  }

  lemma BindCircuit(s: System, g: Gateway, now: int)
    requires CircuitOk(s.history.circuit, s.tables.authorities)
    ensures var t := Apply(s, BindGeneration(g, now)); CircuitOk(t.history.circuit, t.tables.authorities)
  {
    var t := Apply(s, BindGeneration(g, now));
    assert t.history == s.history;
    forall h | h in s.tables.authorities
      ensures h in t.tables.authorities
      ensures s.tables.authorities[h].circuitVersion <= t.tables.authorities[h].circuitVersion
      ensures t.tables.authorities[h].probe.Some? ==>
                && t.tables.authorities[h].probe == s.tables.authorities[h].probe
                && t.tables.authorities[h].circuitVersion == s.tables.authorities[h].circuitVersion
    {
    }
  }

  lemma ObserveCircuit(s: System, w: Worker)
    requires w.phase.Answered? && CircuitOk(s.history.circuit, s.tables.authorities)
    ensures var t := AfterObserve(s, w); CircuitOk(t.history.circuit, t.tables.authorities)
  {
    var t := AfterObserve(s, w);
    if t.history.circuit != s.history.circuit {
      CircuitAppends(s.history.circuit, s.tables.authorities, t.history.circuit[|s.history.circuit|],
                     t.tables.authorities[w.attempt.gateway.generation]);
    }
  }

  lemma ResolveCircuit(s: System, token: Uuid, entropy: nat)
    requires token in s.workers && s.workers[token].phase.Answered?
    ensures AfterResolve(s, token, entropy).history.circuit == s.history.circuit
    ensures AfterResolve(s, token, entropy).tables.authorities == s.tables.authorities
  {
  }

  lemma FinalizeCircuit(s: System, token: Uuid, now: int, entropy: nat, batch: set<Uuid>)
    requires CircuitOk(s.history.circuit, s.tables.authorities)
    requires token in s.workers ==> s.workers[token].attempt.token == token
    ensures
      var t := Apply(s, FinalizeAttempt(token, now, entropy, batch));
      CircuitOk(t.history.circuit, t.tables.authorities)
  {
    if Finalizes(s, token, now, entropy, batch) {
      FinalizeInStages(s, token, now, entropy, batch);
      ResolveCircuit(s.(clock := now), token, entropy);
      ObserveCircuit(AfterResolve(s.(clock := now), token, entropy), s.workers[token]);
    } else {
      FinalizeSkips(s, token, now, entropy, batch);
    }
  }

  lemma StepAccounts(s: System, step: Step)
    requires Inv(s) && Accounts(s)
    ensures Accounts(Apply(s, step))
  {
    match step {
      case EnqueueIntent(_, _, _, _, _) => EnqueueAccounts(s, step);
      case ClaimIntent(g, target, id, token, now, claimedAt) => ClaimAccounts(s, g, target, id, token, now, claimedAt);
      case FinalizeAttempt(token, now, entropy, batch) => FinalizeAccounts(s, token, now, entropy, batch);
      case _ => QuietStepAccounts(s, step);
    }
    match step {
      case LeaseProviderProbe(g, token, now) => LeaseProbeCircuit(s, g, token, now);
      case FinishProviderProbe(g, token, version, available, now) =>
        FinishProbeCircuit(s, g, token, version, available, now);
      case BindGeneration(g, now) => BindCircuit(s, g, now);
      case FinalizeAttempt(token, now, entropy, batch) =>
        assert token in s.workers ==> WorkerOk(s, token);
        FinalizeCircuit(s, token, now, entropy, batch);
      case _ => CircuitUntouched(s, step);
    }
  }

  lemma CircuitUntouched(s: System, step: Step)
    requires !step.LeaseProviderProbe? && !step.FinishProviderProbe? && !step.BindGeneration? && !step.FinalizeAttempt?
    ensures Apply(s, step).history.circuit == s.history.circuit
    ensures Apply(s, step).tables.authorities == s.tables.authorities
  {
  }

  lemma {:induction false} RunAccounts(config: WorkerConfig, clock: int, steps: seq<Step>)
    requires config.Valid()
    ensures Inv(Run(Init(config, clock), steps)) && Accounts(Run(Init(config, clock), steps))
    decreases |steps|
  {
    if steps != [] {
      RunAccounts(config, clock, steps[..|steps| - 1]);
      StepKeeps(Run(Init(config, clock), steps[..|steps| - 1]), steps[|steps| - 1]);
      StepAccounts(Run(Init(config, clock), steps[..|steps| - 1]), steps[|steps| - 1]);
    } else {
      assert forall id: Uuid :: InvokedCount([], id) == 0;
    }
  }
}
