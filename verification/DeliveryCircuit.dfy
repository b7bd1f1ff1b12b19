/** The provider's authority row over its life: when a generation is bound, what replaces it,
    and how probes lead out of a suspension. */
module DeliveryCircuit {
  import opened Basics
  import opened Wrappers
  import opened DeliveryTables
  import opened DeliveryProtocol
  import opened DeliverySafety
  import opened DeliveryTheorems

  /* ---------------------------------- binding --------------------------------- */

  /** Nothing can still be sent or answered: every fence has run out and every intent is finished. */
  ghost predicate Quiet(t: Tables, now: int) {
    && (forall token | token in t.fences :: t.fences[token].expiresAt <= now)
    && (forall id | id in t.intents ::
          !t.intents[id].status.Queued? && !t.intents[id].status.Processing? && !t.intents[id].status.RetryableFailed?)
  }

  /** A gateway binds exactly if its generation is the active one with the same fingerprint, or
      is new and everything is quiet. Whatever else, the expired fences go. */
  lemma BindsExactly(t: Tables, g: Gateway, now: int)
    ensures
      var tx := Bind(t, g, now);
      && (tx.Committed? <==>
            && g.wellFormed && g.enabled
            && (t.Active(g.generation) ==> OwnsAuthority(t, g))
            && (!t.Active(g.generation) ==> Quiet(t, now) && g.generation !in t.authorities))
      && (tx.RolledBack? ==> tx.error == Continuity)
      && (tx.Committed? ==>
            && tx.tables.intents == t.intents && tx.tables.activeCredentials == t.activeCredentials
            && (forall token :: token in tx.tables.fences <==> token in t.fences && now < t.fences[token].expiresAt)
            && (forall token | token in tx.tables.fences :: tx.tables.fences[token] == t.fences[token]))
  {
    var live := LiveFences(t, now);
    if !t.Active(g.generation) {
      assert |live| == 0 <==> live.Keys == {} by {
        if |live| == 0 {
          assert live == map[];
        }
      }
      forall token | token in t.fences
        ensures token in live.Keys <==> now < t.fences[token].expiresAt
      {
      }
    }
  }

  /** Binding the active generation again: the time of binding moves forward and a probe whose
      lease has run out is called off. Its suspension stays. */
  lemma RebindsExactly(t: Tables, g: Gateway, now: int)
    requires t.Active(g.generation) && Bind(t, g, now).Committed?
    ensures
      var after := Bind(t, g, now).tables.authorities;
      && g.generation in after && after == t.authorities[g.generation := after[g.generation]]
      && var (row, before) := (after[g.generation], t.authorities[g.generation]);
         && row.lastBoundAt == Max(before.lastBoundAt, now)
         && row.suspendedAt == before.suspendedAt && row.observation == before.observation
         && row.fingerprint == before.fingerprint && row.activatedAt == before.activatedAt && row.retiredAt.None?
         && if before.probe.Some? && before.probe.value.expiresAt <= now
            then row.probe.None? && row.circuitVersion == before.circuitVersion + 1
            else row.probe == before.probe && row.circuitVersion == before.circuitVersion
  {
  }

  /** Binding a new generation: it enters unsuspended at version 0, the active one is retired
      with its circuit cleared and one version higher, and those retired before stay. */
  lemma SwitchesExactly(t: Tables, g: Gateway, now: int)
    requires !t.Active(g.generation) && Bind(t, g, now).Committed?
    ensures
      var after := Bind(t, g, now).tables.authorities;
      && after.Keys == t.authorities.Keys + {g.generation}
      && (var entrant := after[g.generation];
          && entrant.fingerprint == g.fingerprint && entrant.activatedAt == now && entrant.lastBoundAt == now
          && entrant.circuitVersion == 0 && entrant.retiredAt.None? && entrant.suspendedAt.None?
          && entrant.observation.None? && entrant.probe.None?)
      && forall h | h in t.authorities ::
           var (row, before) := (after[h], t.authorities[h]);
           && row.fingerprint == before.fingerprint && row.activatedAt == before.activatedAt
           && row.lastBoundAt == before.lastBoundAt
           && if before.retiredAt.Some? then row == before
              else
                && row.retiredAt == Some(now) && row.circuitVersion == before.circuitVersion + 1
                && row.suspendedAt.None? && row.observation.None? && row.probe.None?
  {
  }

  /** A new generation can always take over in the end: in a reachable state whose intents are
      finished, from the last fence's end on, and then it is the only one in service. */
  lemma TakesOverOnceQuiet(s: System, config: WorkerConfig, clock: int, steps: seq<Step>, g: Gateway, now: int)
    requires IsReachable(s, config, clock, steps) && s.clock <= now && Quiet(s.tables, now)
    requires g.wellFormed && g.enabled && g.generation !in s.tables.authorities
    ensures
      var t := Apply(s, BindGeneration(g, now));
      && t.tables.fences == map[] && OwnsAuthority(t.tables, g)
      && forall h | t.tables.Active(h) :: h == g.generation
  {
    var t := Apply(s, BindGeneration(g, now));
    BindsExactly(s.tables, g, now);
    SwitchesExactly(s.tables, g, now);
  }

  /* ----------------------------------- probes --------------------------------- */

  /** A probe is leased exactly on a suspended circuit that no unexpired lease probes already. */
  lemma LeasesExactly(t: Tables, g: Gateway, token: Uuid, now: int, config: WorkerConfig)
    ensures
      var tx := LeaseProbe(t, g, token, now, config);
      && (tx == RolledBack(Suspended) <==> g.wellFormed && !g.enabled)
      && (tx == RolledBack(Continuity) <==> !g.wellFormed || (g.enabled && !OwnsAuthority(t, g)))
      && (g.wellFormed && g.enabled && OwnsAuthority(t, g) ==>
            var before := t.authorities[g.generation];
            && tx.Committed?
            && if before.suspendedAt.None? then tx.reply == NotSuspended && tx.tables == t
               else if before.probe.Some? && now < before.probe.value.expiresAt then
                 tx.reply == Conflict && tx.tables == t
               else
                 && tx.reply == Acquired(before.circuitVersion + 1)
                 && tx.tables == t.(authorities := t.authorities[g.generation := before.(
                      circuitVersion := before.circuitVersion + 1,
                      probe := Some(Probe(token, now + config.budget.LeaseSeconds())))]))
  {
  }

  /** A probe's answer counts exactly while its lease is the circuit's last event; good news
      also needs the lease to be unexpired. */
  ghost predicate AnswerCounts(t: Tables, g: Gateway, token: Uuid, version: int, available: bool, now: int) {
    && OwnsAuthority(t, g)
    && var row := t.authorities[g.generation];
       && row.suspendedAt.Some? && row.circuitVersion == version
       && row.probe.Some? && row.probe.value.token == token
       && (available ==> now < row.probe.value.expiresAt)
  }

  /** Good news ends the suspension; bad news renews it under the probe's name, at the later of
      the two observations. */
  lemma ProbesExactly(t: Tables, g: Gateway, token: Uuid, version: int, available: bool, now: int)
    ensures
      var finished := FinishProbe(t, g, token, version, available, now);
      && (finished.Some? <==> AnswerCounts(t, g, token, version, available, now))
      && (finished.Some? ==>
            && g.generation in t.authorities && g.generation in finished.value.authorities
            && var (row, before) := (finished.value.authorities[g.generation], t.authorities[g.generation]);
               && finished.value == t.(authorities := t.authorities[g.generation := row])
               && row.circuitVersion == before.circuitVersion + 1 && row.probe.None? && row.retiredAt.None?
               && row.fingerprint == before.fingerprint && row.activatedAt == before.activatedAt
               && row.lastBoundAt == before.lastBoundAt
               && if available then row.suspendedAt.None? && row.observation.None?
                  else
                    && before.suspendedAt.Some? && row.observation == Some(token)
                    && row.suspendedAt == Some(Max(before.suspendedAt.value, now)))
  {
  }

  /** A probe leads out of a suspension: leased and answered in time with nothing in between,
      it leaves the provider serving again. */
  lemma ProbeLeadsOut(s: System, config: WorkerConfig, clock: int, steps: seq<Step>, g: Gateway, token: Uuid,
                      at: int, now: int)
    requires IsReachable(s, config, clock, steps) && s.clock <= at <= now < at + config.budget.LeaseSeconds()
    requires g.wellFormed && g.enabled && OwnsAuthority(s.tables, g) && token !in s.history.issued
    requires s.tables.authorities[g.generation].suspendedAt.Some?
    requires s.tables.authorities[g.generation].probe.Some? ==>
               s.tables.authorities[g.generation].probe.value.expiresAt <= at
    ensures
      var leased := Apply(s, LeaseProviderProbe(g, token, at));
      var version := s.tables.authorities[g.generation].circuitVersion + 1;
      OperabilityOf(Apply(leased, FinishProviderProbe(g, token, version, true, now)).tables, g) == Operable
  {
    ReachableFacts(s, config, clock, steps);
    LeasesExactly(s.tables, g, token, at, config);
    ProbesExactly(Apply(s, LeaseProviderProbe(g, token, at)).tables, g, token,
                  s.tables.authorities[g.generation].circuitVersion + 1, true, now);
  }
}
