/** The delivery protocol as a state machine: the tables, the workers that hold
    claims, and a history of what happened. Workers may crash between any two steps. */
module DeliveryProtocol {
  import opened Wrappers
  import opened DeliveryTables

  /** Where a worker stands: claimed, calling the provider, or holding a resolution. */
  datatype Phase = Held | Calling | Answered(resolution: Resolution, invoked: bool)

  datatype Worker = Worker(attempt: Attempt, phase: Phase)

  /* ---------------------------------- history --------------------------------- */

  /** A provider call, with its effect deadline, when it was authorized, and how many
      finalizations had resolved an intent by then. */
  datatype Authorization =
    Authorization(id: Uuid, generation: string, number: int, deadline: int, at: int, resolved: nat)

  /** A compare-and-set that hit: who resolved which intent, whether the provider's answer
      left open if it still acts, and whether the intent was rescheduled. */
  datatype ResolutionEvent =
    ResolutionEvent(token: Uuid, id: Uuid, number: int, invoked: bool, uncertain: bool, rescheduled: bool)

  /** Unavailable observations, probe leases and clearings of a suspension, each with the
      circuit version it produced. */
  datatype CircuitEvent =
    | Observed(generation: string, version: int)
    | ProbeLeased(generation: string, version: int, token: Uuid, expiresAt: int)
    | Cleared(generation: string, version: int, token: Uuid, at: int)

  datatype Enqueued = Enqueued(createdAt: int, credentialExpiresAt: int)

  datatype History = History(
    issued: set<Uuid>,
    enqueued: map<Uuid, Enqueued>,
    authorized: map<Uuid, Authorization>,
    definitive: set<Uuid>,
    resolutions: seq<ResolutionEvent>,
    explicitly: set<Uuid>,
    circuit: seq<CircuitEvent>)

  datatype System = System(
    config: WorkerConfig,
    clock: int,
    tables: Tables,
    workers: map<Uuid, Worker>,
    history: History)

  function Init(config: WorkerConfig, clock: int): System {
    System(config, clock, Tables(map[], map[], map[], {}), map[], History({}, map[], map[], {}, [], {}, []))
  }

  /* ----------------------------------- steps ---------------------------------- */

  datatype Step =
    | Tick(now: int)
    | SetCredential(credential: Credential, active: bool)
    | EnqueueIntent(gateway: Gateway, id: Uuid, credential: Credential, credentialExpiresAt: int, now: int)
    | CancelCredential(hash: string, reason: string, now: int)
    | EraseIntents(ids: set<Uuid>)
    | ClaimIntent(gateway: Gateway, target: ClaimTarget, id: Uuid, token: Uuid, now: int, claimedAt: int)
    | PrepareCall(token: Uuid, now: int, failed: bool, unsealed: bool)
    | ProviderAnswers(token: Uuid, outcome: ProviderOutcome)
    | FinalizeAttempt(token: Uuid, now: int, entropy: nat, batch: set<Uuid>)
    | Crash(token: Uuid)
    | BindGeneration(gateway: Gateway, now: int)
    | LeaseProviderProbe(gateway: Gateway, token: Uuid, now: int)
    | FinishProviderProbe(gateway: Gateway, token: Uuid, version: int, available: bool, now: int)

  /** One step; a step that is not enabled changes nothing. */
  function Apply(s: System, step: Step): System {
    match step
    case Tick(now) => if now < s.clock then s else s.(clock := now)
    case SetCredential(c, active) =>
      s.(tables := s.tables.(activeCredentials :=
        if active then s.tables.activeCredentials + {c} else s.tables.activeCredentials - {c}))
    case EnqueueIntent(g, id, c, expires, now) => ApplyEnqueue(s, g, id, c, expires, now)
    case CancelCredential(hash, reason, now) => s.(tables := CancelByCredential(s.tables, hash, reason, now))
    case EraseIntents(ids) => s.(tables := Erase(s.tables, ids))
    case ClaimIntent(g, target, id, token, now, claimedAt) => ApplyClaim(s, g, target, id, token, now, claimedAt)
    case PrepareCall(token, now, failed, unsealed) => ApplyPrepare(s, token, now, failed, unsealed)
    case ProviderAnswers(token, outcome) =>
      if token in s.workers && s.workers[token].phase.Calling?
      then s.(workers := s.workers[token := s.workers[token].(phase := Answered(Outcome(outcome), true))])
      else s
    case FinalizeAttempt(token, now, entropy, batch) => ApplyFinalize(s, token, now, entropy, batch)
    case Crash(token) => s.(workers := s.workers - {token})
    case BindGeneration(g, now) => ApplyBind(s, g, now)
    case LeaseProviderProbe(g, token, now) => ApplyLeaseProbe(s, g, token, now)
    case FinishProviderProbe(g, token, version, available, now) =>
      ApplyFinishProbe(s, g, token, version, available, now)
  }

  function ApplyEnqueue(s: System, g: Gateway, id: Uuid, c: Credential, expires: int, now: int): System {
    var tx := Enqueue(s.tables, g, id, c, expires, now);
    if id in s.history.enqueued || tx.RolledBack? then s
    else s.(tables := tx.tables,
         history := s.history.(enqueued := s.history.enqueued[id := Enqueued(now, expires)]))
  }

  function ApplyClaim(s: System, g: Gateway, target: ClaimTarget, id: Uuid, token: Uuid, now: int,
                      claimedAt: int): System {
    if !(s.clock <= now <= claimedAt) || token in s.history.issued || id !in s.tables.intents
       || !Claimable(target, id, s.tables.intents[id], g.generation, now)
    then s
    else
      var tx := Claim(s.tables, g, target, id, token, now, claimedAt, s.config);
      if tx.RolledBack? then s
      else
        var committed := s.(tables := tx.tables, clock := claimedAt);
        if !tx.reply.Claimed? then committed
        else committed.(
             workers := s.workers[token := Worker(tx.reply.attempt, Held)],
             history := s.history.(
             issued := s.history.issued + {token},
             explicitly := if target.Exactly? then s.history.explicitly + {id} else s.history.explicitly))
  }

  /** `failed` marks a preparation whose database phase timed out. */
  function ApplyPrepare(s: System, token: Uuid, now: int, failed: bool, unsealed: bool): System {
    if now < s.clock || token !in s.workers || !s.workers[token].phase.Held? then s
    else
      var a := s.workers[token].attempt;
      var permission := if failed then PreparationFailed else Revalidate(s.tables, a, now, s.config);
      var resolution := ResolutionWithoutCall(a, permission, unsealed);
      var phase := if resolution.None? then Calling else Answered(resolution.value, false);
      var history :=
        if !a.permitted || !permission.Permitted? then s.history
        else s.history.(authorized := s.history.authorized[
               token := Authorization(a.id, a.gateway.generation, a.number, a.effectDeadlineAt, now,
                                      |s.history.resolutions|)]);
      s.(clock := now, workers := s.workers[token := Worker(a, phase)], history := history)
  }

  function ApplyFinalize(s: System, token: Uuid, now: int, entropy: nat, batch: set<Uuid>): System {
    if now < s.clock || token !in s.workers || !s.workers[token].phase.Answered?
       || !AllExpired(s.tables.fences, now, batch)
    then s
    else
      var w := s.workers[token];
      var r := w.phase.resolution;
      var done := s.(clock := now, workers := s.workers - {token});
      var tx := Finalize(s.tables, w.attempt, r, w.phase.invoked, now, entropy, batch, s.config);
      if tx.RolledBack? then done
      else done.(tables := tx.tables, history := AfterFinalize(s, w, tx.reply))
  }

  function AfterFinalize(s: System, w: Worker, reply: FinalizeReply): History
    requires w.phase.Answered?
  {
    var h := s.history;
    var a := w.attempt;
    var uncertain := w.phase.invoked && w.phase.resolution.IsUncertain();
    var observed := && w.phase.invoked && w.phase.resolution.SaysUnavailable()
                    && a.gateway.generation in s.tables.authorities;
    h.(definitive := if uncertain then h.definitive else h.definitive + {a.token},
    resolutions := if reply.Resolved?
                   then h.resolutions + [ResolutionEvent(a.token, a.id, a.number, w.phase.invoked, uncertain,
                                                         reply.row.nextAttemptAt.Some?)]
                   else h.resolutions,
    circuit := if observed
               then h.circuit + [Observed(a.gateway.generation,
                                          s.tables.authorities[a.gateway.generation].circuitVersion + 1)]
               else h.circuit)
  }

  function ApplyBind(s: System, g: Gateway, now: int): System {
    var tx := Bind(s.tables, g, now);
    if now < s.clock || tx.RolledBack? then s
    else s.(tables := tx.tables, clock := now)
  }

  function ApplyLeaseProbe(s: System, g: Gateway, token: Uuid, now: int): System {
    var tx := LeaseProbe(s.tables, g, token, now, s.config);
    if now < s.clock || token in s.history.issued || tx.RolledBack? then s
    else if !tx.reply.Acquired? then s.(clock := now)
    else s.(tables := tx.tables, clock := now,
         history := s.history.(
         issued := s.history.issued + {token},
         circuit := s.history.circuit
                    + [ProbeLeased(g.generation, tx.reply.circuitVersion, token,
                                   now + s.config.budget.LeaseSeconds())]))
  }

  function ApplyFinishProbe(s: System, g: Gateway, token: Uuid, version: int, available: bool, now: int): System {
    var finished := FinishProbe(s.tables, g, token, version, available, now);
    if now < s.clock || finished.None? then s
    else s.(tables := finished.value, clock := now,
         history := s.history.(circuit := s.history.circuit
                                          + [if available then Cleared(g.generation, version + 1, token, now)
                                             else Observed(g.generation, version + 1)]))
  }

  function Run(s: System, steps: seq<Step>): System
    decreases |steps|
  {
    if steps == [] then s else Apply(Run(s, steps[..|steps| - 1]), steps[|steps| - 1])
  }
}
