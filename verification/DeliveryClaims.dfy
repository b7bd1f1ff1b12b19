/** Claims over whole runs: when a claim is lost, that it stays lost and its worker harmless,
    that two calls for one intent can act at once only after an uncertain answer, and that a
    credential is delivered through one intent only. */
module DeliveryClaims {
  import opened Wrappers
  import opened DeliveryTables
  import opened DeliveryProtocol
  import opened DeliverySafety
  import opened DeliveryAccounting
  import opened DeliveryTheorems

  /* -------------------------------- lost claims ------------------------------- */

  predicate Carries(t: Tables, id: Uuid, token: Uuid) {
    id in t.intents && t.intents[id].claim.Some? && t.intents[id].claim.value.token == token
  }

  /** An issued token that no row carries: reclaimed, cancelled, erased or finalized. */
  ghost predicate Lost(s: System, token: Uuid) {
    token in s.history.issued && forall id | id in s.tables.intents :: !Carries(s.tables, id, token)
  }

  lemma ClaimCarries(s: System, g: Gateway, target: ClaimTarget, wanted: Uuid, taker: Uuid, now: int, claimedAt: int,
                     id: Uuid, token: Uuid)
    requires token in s.history.issued
    ensures
      var t := Apply(s, ClaimIntent(g, target, wanted, taker, now, claimedAt));
      token in t.history.issued && (Carries(t.tables, id, token) ==> Carries(s.tables, id, token))
  {
  }

  lemma FinalizeCarries(s: System, taker: Uuid, now: int, entropy: nat, batch: set<Uuid>, id: Uuid, token: Uuid)
    requires token in s.history.issued
    ensures
      var t := Apply(s, FinalizeAttempt(taker, now, entropy, batch));
      token in t.history.issued && (Carries(t.tables, id, token) ==> Carries(s.tables, id, token))
  {
    FinalizeRows(s, taker, now, entropy, batch);
  }

  /** No step puts an issued token onto a row that did not carry it. */
  lemma StepCarries(s: System, step: Step, id: Uuid, token: Uuid)
    requires token in s.history.issued
    ensures token in Apply(s, step).history.issued
    ensures Carries(Apply(s, step).tables, id, token) ==> Carries(s.tables, id, token)
  {
    match step {
      case ClaimIntent(g, target, wanted, taker, now, claimedAt) =>
        ClaimCarries(s, g, target, wanted, taker, now, claimedAt, id, token);
      case FinalizeAttempt(taker, now, entropy, batch) => FinalizeCarries(s, taker, now, entropy, batch, id, token);
      case _ =>
    }
  }

  lemma LostStep(s: System, step: Step, token: Uuid)
    requires Lost(s, token)
    ensures Lost(Apply(s, step), token)
  {
    StepCarries(s, step, 0, token);
    forall id | id in Apply(s, step).tables.intents
      ensures !Carries(Apply(s, step).tables, id, token)
    {
      StepCarries(s, step, id, token);
    }
  }

  /** A lost claim stays lost over every continuation. */
  lemma {:induction false} LostForever(s: System, later: seq<Step>, token: Uuid)
    requires Lost(s, token)
    ensures Lost(Run(s, later), token)
    decreases |later|
  {
    if later != [] {
      LostForever(s, later[..|later| - 1], token);
      LostStep(Run(s, later[..|later| - 1]), later[|later| - 1], token);
    }
  }

  /** Once its claim is lost, a worker changes no intent and resolves nothing, whenever in
      any continuation its finalization runs. */
  lemma LostClaimsChangeNothing(s: System, config: WorkerConfig, clock: int, steps: seq<Step>, token: Uuid,
                                later: seq<Step>, now: int, entropy: nat, batch: set<Uuid>)
    requires IsReachable(s, config, clock, steps) && Lost(s, token)
    ensures
      var t := Run(s, later);
      var u := Apply(t, FinalizeAttempt(token, now, entropy, batch));
      && Lost(t, token) && Lost(u, token)
      && u.tables.intents == t.tables.intents && u.history.resolutions == t.history.resolutions
  {
    var t := Run(s, later);
    LostForever(s, later, token);
    LostStep(t, FinalizeAttempt(token, now, entropy, batch), token);
    RunAppend(Init(config, clock), steps, later);
    ReachableFacts(t, config, clock, steps + later);
    if token in t.workers {
      assert WorkerOk(t, token) && !Carries(t.tables, t.workers[token].attempt.id, token);
      UnheldFinalizeChangesNothing(t, token, now, entropy, batch);
    }
  }

  /* how a claim is lost */

  /** No two rows carry one token, so a row that stops carrying it leaves it lost. */
  lemma DroppedIsLost(s: System, step: Step, id: Uuid, token: Uuid)
    requires Inv(s) && Carries(s.tables, id, token) && !Carries(Apply(s, step).tables, id, token)
    ensures Lost(Apply(s, step), token)
  {
    assert ClaimOk(s, id);
    StepCarries(s, step, id, token);
    forall other | other in Apply(s, step).tables.intents
      ensures !Carries(Apply(s, step).tables, other, token)
    {
      StepCarries(s, step, other, token);
    }
  }

  lemma RecoveryDrops(s: System, g: Gateway, target: ClaimTarget, wanted: Uuid, taker: Uuid, now: int, claimedAt: int,
                      id: Uuid, token: Uuid)
    requires token in s.history.issued && Carries(s.tables, id, token)
    requires Touches(s, ClaimIntent(g, target, wanted, taker, now, claimedAt), id)
    ensures !Carries(Apply(s, ClaimIntent(g, target, wanted, taker, now, claimedAt)).tables, id, token)
  {
  }

  lemma FinalizationDrops(s: System, token: Uuid, now: int, entropy: nat, batch: set<Uuid>, id: Uuid)
    requires Finalizes(s, token, now, entropy, batch)
    requires Carries(s.tables, id, token) ==>
             s.workers[token].attempt.id == id && s.tables.intents[id].status.Processing?
    ensures !Carries(Apply(s, FinalizeAttempt(token, now, entropy, batch)).tables, id, token)
  {
    FinalizeInStages(s, token, now, entropy, batch);
  }

  /** Its own committed finalization loses a worker its claim, hit or miss. */
  lemma FinalizationLoses(s: System, config: WorkerConfig, clock: int, steps: seq<Step>,
                          token: Uuid, now: int, entropy: nat, batch: set<Uuid>)
    requires IsReachable(s, config, clock, steps) && Finalizes(s, token, now, entropy, batch)
    ensures Lost(Apply(s, FinalizeAttempt(token, now, entropy, batch)), token)
  {
    ReachableFacts(s, config, clock, steps);
    assert WorkerOk(s, token);
    var t := Apply(s, FinalizeAttempt(token, now, entropy, batch));
    FinalizeCarries(s, token, now, entropy, batch, 0, token);
    forall id | id in t.tables.intents
      ensures !Carries(t.tables, id, token)
    {
      if Carries(s.tables, id, token) {
        assert ClaimOk(s, id) && IntentOk(s.tables.intents[id], s.config, s.clock);
        FinalizationDrops(s, token, now, entropy, batch, id);
      } else {
        FinalizeCarries(s, token, now, entropy, batch, id, token);
      }
    }
  }

  /** The claim on a row is lost exactly when a step touches the row. */
  lemma ClaimsAreLostByTouching(s: System, config: WorkerConfig, clock: int, steps: seq<Step>, step: Step, id: Uuid)
    requires IsReachable(s, config, clock, steps)
    requires id in s.tables.intents && s.tables.intents[id].status.Processing?
    ensures s.tables.intents[id].claim.Some?
    ensures Lost(Apply(s, step), s.tables.intents[id].claim.value.token) <==> Touches(s, step, id)
  {
    ReachableFacts(s, config, clock, steps);
    assert IntentOk(s.tables.intents[id], s.config, s.clock) && ClaimOk(s, id);
    var token := s.tables.intents[id].claim.value.token;
    if Touches(s, step, id) {
      WhoMayChangeAClaimedIntent(s, config, clock, steps, step, id);
      match step {
        case FinalizeAttempt(taker, now, entropy, batch) =>
          assert taker in s.workers ==> WorkerOk(s, taker);
          FinalizeEffect(s, taker, now, entropy, batch);
          FinalizationLoses(s, config, clock, steps, taker, now, entropy, batch);
        case ClaimIntent(g, target, wanted, taker, now, claimedAt) =>
          RecoveryDrops(s, g, target, wanted, taker, now, claimedAt, id, token);
          DroppedIsLost(s, step, id, token);
        case _ => DroppedIsLost(s, step, id, token);
      }
    } else {
      assert Carries(Apply(s, step).tables, id, token);
    }
  }

  /** Taking a row over, cancelling its credential and erasing it each touch it. */
  lemma EveryEndingTouches(s: System, step: Step, id: Uuid)
    requires id in s.tables.intents && s.tables.intents[id].status.Processing?
    requires match step
             case ClaimIntent(_, _, wanted, _, _, _) =>
               wanted == id && Apply(s, step).tables.intents != s.tables.intents
             case CancelCredential(hash, _, _) => hash == s.tables.intents[id].credential.hash
             case EraseIntents(ids) => id in ids
             case _ => false
    ensures Touches(s, step, id)
  {
  }

  /* ------------------------------- call windows ------------------------------- */

  /** One of the first finalizations was of this call, with this kind of answer. */
  ghost predicate Finalized(h: History, token: Uuid, uncertain: bool, upTo: nat) {
    exists k :: 0 <= k < upTo && k < |h.resolutions| && h.resolutions[k].token == token
      && h.resolutions[k].uncertain == uncertain
  }

  /** By this time and after so many finalizations the call had been finalized, definitively
      or with an uncertain answer, or its effect deadline lay back by the margin. */
  ghost predicate IsOver(s: System, token: Uuid, at: int, upTo: nat)
    requires token in s.history.authorized
  {
    || Finalized(s.history, token, false, upTo) || Finalized(s.history, token, true, upTo)
    || s.history.authorized[token].deadline + s.config.budget.MarginSeconds() <= at
  }

  ghost predicate CallsAreKnown(s: System) {
    forall token | token in s.history.authorized ::
      && s.history.authorized[token].id in s.history.enqueued && s.history.authorized[token].at <= s.clock
      && s.history.authorized[token].resolved <= |s.history.resolutions|
  }

  /** Whatever was called for an unfinished intent, except under its present claim, was over
      when the row was last written. */
  ghost predicate EarlierCallsAreOver(s: System) {
    forall id, token |
      && id in s.tables.intents && token in s.history.authorized && s.history.authorized[token].id == id
      && !Terminal(s.tables.intents[id].status) && !Carries(s.tables, id, token) ::
        !s.tables.intents[id].status.Queued?
        && IsOver(s, token, s.tables.intents[id].updatedAt, |s.history.resolutions|)
  }

  /** The first call was over when the second was authorized. */
  ghost predicate Precedes(s: System, a: Uuid, b: Uuid)
    requires a in s.history.authorized && b in s.history.authorized
  {
    && s.history.authorized[a].at <= s.history.authorized[b].at
    && IsOver(s, a, s.history.authorized[b].at, s.history.authorized[b].resolved)
  }

  ghost predicate WindowsApart(s: System) {
    forall a, b | a in s.history.authorized && b in s.history.authorized && a != b
                  && s.history.authorized[a].id == s.history.authorized[b].id :: Precedes(s, a, b) || Precedes(s, b, a)
  }

  ghost predicate WindowsOk(s: System) {
    CallsAreKnown(s) && EarlierCallsAreOver(s) && WindowsApart(s)
  }

  /** Later finalizations take nothing back. */
  lemma OverStays(s: System, t: System, token: Uuid, at: int, later: int, upTo: nat, longer: nat)
    requires token in s.history.authorized && token in t.history.authorized
    requires s.history.authorized[token].deadline == t.history.authorized[token].deadline && t.config == s.config
    requires s.history.resolutions <= t.history.resolutions && at <= later && upTo <= longer
    requires IsOver(s, token, at, upTo)
    ensures IsOver(t, token, later, longer)
  {
    forall uncertain | Finalized(s.history, token, uncertain, upTo)
      ensures Finalized(t.history, token, uncertain, longer)
    {
      var k :| 0 <= k < upTo && k < |s.history.resolutions| && s.history.resolutions[k].token == token
        && s.history.resolutions[k].uncertain == uncertain;
      assert t.history.resolutions[k] == s.history.resolutions[k];
    }
  }

  lemma ApartStays(s: System, t: System)
    requires WindowsApart(s)
    requires t.history.authorized == s.history.authorized && s.history.resolutions <= t.history.resolutions
    requires t.config == s.config
    ensures WindowsApart(t)
  {
    forall a, b | a in t.history.authorized && b in t.history.authorized && a != b
                  && t.history.authorized[a].id == t.history.authorized[b].id
      ensures Precedes(t, a, b) || Precedes(t, b, a)
    {
      var (x, y) := if Precedes(s, a, b) then (a, b) else (b, a);
      var later := s.history.authorized[y];
      OverStays(s, t, x, later.at, later.at, later.resolved, later.resolved);
    }
  }

  /** Steps that authorize nothing and only keep, end or remove rows. */
  lemma EndingKeepsWindows(s: System, t: System)
    requires WindowsOk(s) && OnlyEnds(s.tables.intents, t.tables.intents)
    requires t.config == s.config && s.clock <= t.clock
    requires t.history.authorized == s.history.authorized && t.history.resolutions == s.history.resolutions
    requires s.history.enqueued.Keys <= t.history.enqueued.Keys
    ensures WindowsOk(t)
  {
    ApartStays(s, t);
    forall id, token |
      && id in t.tables.intents && token in t.history.authorized && t.history.authorized[token].id == id
      && !Terminal(t.tables.intents[id].status) && !Carries(t.tables, id, token)
      ensures !t.tables.intents[id].status.Queued?
      ensures IsOver(t, token, t.tables.intents[id].updatedAt, |t.history.resolutions|)
    {
      var (at, n) := (s.tables.intents[id].updatedAt, |s.history.resolutions|);
      assert t.tables.intents[id] == s.tables.intents[id] && IsOver(s, token, at, n);
      OverStays(s, t, token, at, at, n, n);
    }
  }

  lemma QuietHistory(s: System, step: Step)
    requires !step.PrepareCall?
    ensures Apply(s, step).history.authorized == s.history.authorized && s.clock <= Apply(s, step).clock
  {
  }

  /** Rewriting one row keeps the windows apart if every other call for it is over by then. */
  lemma RewriteKeepsWindows(s: System, t: System, id: Uuid)
    requires WindowsOk(s) && id in t.tables.intents
    requires t.tables.intents == s.tables.intents[id := t.tables.intents[id]]
    requires t.config == s.config && s.clock <= t.clock
    requires t.history.authorized == s.history.authorized && s.history.resolutions <= t.history.resolutions
    requires s.history.enqueued.Keys <= t.history.enqueued.Keys
    requires forall token | token in t.history.authorized && t.history.authorized[token].id == id
                            && !Terminal(t.tables.intents[id].status) && !Carries(t.tables, id, token) ::
               !t.tables.intents[id].status.Queued?
               && IsOver(t, token, t.tables.intents[id].updatedAt, |t.history.resolutions|)
    ensures WindowsOk(t)
  {
    ApartStays(s, t);
    forall other, token |
      && other in t.tables.intents && token in t.history.authorized && t.history.authorized[token].id == other
      && !Terminal(t.tables.intents[other].status) && !Carries(t.tables, other, token)
      ensures !t.tables.intents[other].status.Queued?
      ensures IsOver(t, token, t.tables.intents[other].updatedAt, |t.history.resolutions|)
    {
      if other != id {
        var (at, n) := (s.tables.intents[other].updatedAt, |s.history.resolutions|);
        assert IsOver(s, token, at, n);
        OverStays(s, t, token, at, at, n, |t.history.resolutions|);
      }
    }
  }

  lemma EnqueueKeepsWindows(s: System, step: Step)
    requires EnqueuedOk(s) && WindowsOk(s) && step.EnqueueIntent?
    ensures WindowsOk(Apply(s, step))
  {
    var t := Apply(s, step);
    if t != s {
      RewriteKeepsWindows(s, t, step.id);
    }
  }

  lemma ClaimKeepsWindows(s: System, g: Gateway, target: ClaimTarget, id: Uuid, token: Uuid, now: int, claimedAt: int)
    requires Inv(s) && WindowsOk(s)
    ensures WindowsOk(Apply(s, ClaimIntent(g, target, id, token, now, claimedAt)))
  {
    var step := ClaimIntent(g, target, id, token, now, claimedAt);
    var t := Apply(s, step);
    QuietHistory(s, step);
    ClaimEffect(s, g, target, id, token, now, claimedAt);
    if t.tables.intents != s.tables.intents && !OnlyEnds(s.tables.intents, t.tables.intents) {
      var row := s.tables.intents[id];
      var n := |s.history.resolutions|;
      assert IntentOk(row, s.config, s.clock);
      forall other | other in t.history.authorized && t.history.authorized[other].id == id
                     && !Carries(t.tables, id, other)
        ensures IsOver(t, other, t.tables.intents[id].updatedAt, n)
      {
        if Carries(s.tables, id, other) {
          assert ClaimOk(s, id);
        } else {
          assert IsOver(s, other, row.updatedAt, n);
          OverStays(s, t, other, row.updatedAt, claimedAt, n, n);
        }
      }
      RewriteKeepsWindows(s, t, id);
    } else {
      EndingKeepsWindows(s, t);
    }
  }

  lemma ResolvedCallsAreOver(s: System, token: Uuid, entropy: nat, other: Uuid)
    requires Inv(s) && WindowsOk(s) && token in s.workers && s.workers[token].phase.Answered?
    requires Holds(s.tables, s.workers[token].attempt)
    requires other in s.history.authorized && s.history.authorized[other].id == s.workers[token].attempt.id
    ensures IsOver(AfterResolve(s, token, entropy), other, s.clock, |s.history.resolutions| + 1)
  {
    var id := s.workers[token].attempt.id;
    var t := AfterResolve(s, token, entropy);
    var n := |s.history.resolutions|;
    assert WorkerOk(s, token) && IntentOk(s.tables.intents[id], s.config, s.clock);
    if other == token {
      assert t.history.resolutions[n].token == token;
      assert Finalized(t.history, token, t.history.resolutions[n].uncertain, n + 1);
    } else {
      assert IsOver(s, other, s.tables.intents[id].updatedAt, n);
      OverStays(s, t, other, s.tables.intents[id].updatedAt, s.clock, n, n + 1);
    }
  }

  lemma ResolveKeepsWindows(s: System, token: Uuid, entropy: nat)
    requires Inv(s) && WindowsOk(s) && token in s.workers && s.workers[token].phase.Answered?
    ensures WindowsOk(AfterResolve(s, token, entropy))
  {
    var a := s.workers[token].attempt;
    var t := AfterResolve(s, token, entropy);
    if Holds(s.tables, a) {
      SettledRowOk(s, token, entropy);
      forall other | other in t.history.authorized && t.history.authorized[other].id == a.id
        ensures IsOver(t, other, s.clock, |t.history.resolutions|)
      {
        ResolvedCallsAreOver(s, token, entropy, other);
      }
      RewriteKeepsWindows(s, t, a.id);
    }
  }

  lemma FinalizeKeepsWindows(s: System, token: Uuid, now: int, entropy: nat, batch: set<Uuid>)
    requires Inv(s) && WindowsOk(s)
    ensures WindowsOk(Apply(s, FinalizeAttempt(token, now, entropy, batch)))
  {
    assert token in s.workers ==> WorkerOk(s, token);
    QuietHistory(s, FinalizeAttempt(token, now, entropy, batch));
    if Finalizes(s, token, now, entropy, batch) {
      TickKeeps(s, now);
      EndingKeepsWindows(s, s.(clock := now));
      ResolveKeepsWindows(s.(clock := now), token, entropy);
      FinalizeInStages(s, token, now, entropy, batch);
      EndingKeepsWindows(AfterResolve(s.(clock := now), token, entropy),
                         Apply(s, FinalizeAttempt(token, now, entropy, batch)));
    } else {
      FinalizeSkips(s, token, now, entropy, batch);
      EndingKeepsWindows(s, Apply(s, FinalizeAttempt(token, now, entropy, batch)));
    }
  }

  /** What a preparation can do to the authorizations: nothing, or add its own token while
      its row carries it. */
  lemma PrepareEffect(s: System, token: Uuid, now: int, failed: bool, unsealed: bool)
    requires Inv(s)
    ensures
      var t := Apply(s, PrepareCall(token, now, failed, unsealed));
      && t.tables == s.tables && t.config == s.config && s.clock <= t.clock
      && t.history == s.history.(authorized := t.history.authorized)
      && (|| t.history.authorized == s.history.authorized
          || (&& token in s.workers && t.clock == now
              && var a := s.workers[token].attempt;
                 && Carries(s.tables, a.id, token) && s.tables.intents[a.id].status.Processing?
                 && t.history.authorized == s.history.authorized[
                      token := Authorization(a.id, a.gateway.generation, a.number, a.effectDeadlineAt, now,
                                             |s.history.resolutions|)]))
  {
    assert token in s.workers ==> WorkerOk(s, token);
  }

  /** `token` has just been authorized, at a time no earlier than its row was claimed. */
  ghost predicate JustAuthorized(s: System, t: System, token: Uuid) {
    && t.tables == s.tables && t.config == s.config && s.clock <= t.clock
    && t.history == s.history.(authorized := t.history.authorized)
    && token in t.history.authorized && t.history.authorized[token].at == t.clock
    && t.history.authorized[token].resolved == |s.history.resolutions|
    && t.history.authorized == s.history.authorized[token := t.history.authorized[token]]
    && var id := t.history.authorized[token].id;
       && Carries(s.tables, id, token) && !Terminal(s.tables.intents[id].status)
       && s.tables.intents[id].updatedAt <= s.clock && id in s.history.enqueued
  }

  lemma AuthorizingKeepsOthers(s: System, t: System, token: Uuid)
    requires WindowsOk(s) && JustAuthorized(s, t, token)
    ensures EarlierCallsAreOver(t)
  {
    forall id, other |
      && id in t.tables.intents && other in t.history.authorized && t.history.authorized[other].id == id
      && !Terminal(t.tables.intents[id].status) && !Carries(t.tables, id, other)
      ensures !t.tables.intents[id].status.Queued?
      ensures IsOver(t, other, t.tables.intents[id].updatedAt, |t.history.resolutions|)
    {
      var (at, n) := (s.tables.intents[id].updatedAt, |s.history.resolutions|);
      assert other != token && IsOver(s, other, at, n);
      OverStays(s, t, other, at, at, n, n);
    }
  }

  lemma AuthorizingComesAfter(s: System, t: System, token: Uuid, other: Uuid)
    requires WindowsOk(s) && JustAuthorized(s, t, token)
    requires other in s.history.authorized && other != token
    requires s.history.authorized[other].id == t.history.authorized[token].id
    ensures Precedes(t, other, token)
  {
    var id := t.history.authorized[token].id;
    var (at, n) := (s.tables.intents[id].updatedAt, |s.history.resolutions|);
    assert IsOver(s, other, at, n);
    OverStays(s, t, other, at, t.clock, n, n);
  }

  lemma AuthorizingKeepsApart(s: System, t: System, token: Uuid)
    requires WindowsOk(s) && JustAuthorized(s, t, token)
    ensures WindowsApart(t)
  {
    forall a, b | a in t.history.authorized && b in t.history.authorized && a != b
                  && t.history.authorized[a].id == t.history.authorized[b].id
      ensures Precedes(t, a, b) || Precedes(t, b, a)
    {
      if a == token {
        AuthorizingComesAfter(s, t, token, b);
      } else if b == token {
        AuthorizingComesAfter(s, t, token, a);
      } else {
        var (x, y) := if Precedes(s, a, b) then (a, b) else (b, a);
        var later := s.history.authorized[y];
        OverStays(s, t, x, later.at, later.at, later.resolved, later.resolved);
      }
    }
  }

  lemma PrepareKeepsWindows(s: System, token: Uuid, now: int, failed: bool, unsealed: bool)
    requires Inv(s) && EnqueuedOk(s) && WindowsOk(s)
    ensures WindowsOk(Apply(s, PrepareCall(token, now, failed, unsealed)))
  {
    var t := Apply(s, PrepareCall(token, now, failed, unsealed));
    PrepareEffect(s, token, now, failed, unsealed);
    if t.history.authorized == s.history.authorized {
      EndingKeepsWindows(s, t);
    } else {
      var id := s.workers[token].attempt.id;
      assert IntentOk(s.tables.intents[id], s.config, s.clock);
      assert JustAuthorized(s, t, token);
      AuthorizingKeepsOthers(s, t, token);
      AuthorizingKeepsApart(s, t, token);
    }
  }

  lemma StepKeepsWindows(s: System, step: Step)
    requires Inv(s) && EnqueuedOk(s) && WindowsOk(s)
    ensures WindowsOk(Apply(s, step))
  {
    match step {
      case EnqueueIntent(_, _, _, _, _) => EnqueueKeepsWindows(s, step);
      case ClaimIntent(g, target, id, token, now, claimedAt) =>
        ClaimKeepsWindows(s, g, target, id, token, now, claimedAt);
      case FinalizeAttempt(token, now, entropy, batch) => FinalizeKeepsWindows(s, token, now, entropy, batch);
      case PrepareCall(token, now, failed, unsealed) => PrepareKeepsWindows(s, token, now, failed, unsealed);
      case _ =>
        QuietStepOnlyEnds(s, step);
        QuietHistory(s, step);
        EndingKeepsWindows(s, Apply(s, step));
    }
  }

  lemma {:induction false} RunKeepsWindows(config: WorkerConfig, clock: int, steps: seq<Step>)
    requires config.Valid()
    ensures WindowsOk(Run(Init(config, clock), steps))
    decreases |steps|
  {
    if steps != [] {
      var before := Run(Init(config, clock), steps[..|steps| - 1]);
      RunKeepsWindows(config, clock, steps[..|steps| - 1]);
      RunAccounts(config, clock, steps[..|steps| - 1]);
      StepKeepsWindows(before, steps[|steps| - 1]);
    }
  }

  /* what an uncertain answer leaves */

  /** A token that resolved an intent has no worker, and is definitive unless its answer was
      uncertain. */
  ghost predicate KindsOk(s: System) {
    forall k | 0 <= k < |s.history.resolutions| ::
      && s.history.resolutions[k].token in s.history.issued && s.history.resolutions[k].token !in s.workers
      && (s.history.resolutions[k].uncertain <==> s.history.resolutions[k].token !in s.history.definitive)
  }

  /** What a committed finalization does to the log, the workers and the definitive tokens. */
  lemma FinalizeRecords(s: System, token: Uuid, now: int, entropy: nat, batch: set<Uuid>)
    requires Finalizes(s, token, now, entropy, batch)
    ensures
      var w := s.workers[token];
      var uncertain := w.phase.invoked && w.phase.resolution.IsUncertain();
      var t := Apply(s, FinalizeAttempt(token, now, entropy, batch));
      var n := |s.history.resolutions|;
      && t.workers == s.workers - {token} && t.history.issued == s.history.issued
      && t.history.definitive == (if uncertain then s.history.definitive else s.history.definitive + {token})
      && (|| t.history.resolutions == s.history.resolutions
          || (&& |t.history.resolutions| == n + 1 && t.history.resolutions[..n] == s.history.resolutions
              && t.history.resolutions[n].token == token && t.history.resolutions[n].uncertain == uncertain))
  {
    FinalizeInStages(s, token, now, entropy, batch);
  }

  /** A committed finalization's own entry, and every earlier one. */
  lemma RecordKeepsKinds(s: System, t: System, token: Uuid, uncertain: bool)
    requires KindsOk(s) && token in s.workers && token in s.history.issued && token !in s.history.definitive
    requires t.workers == s.workers - {token} && t.history.issued == s.history.issued
    requires t.history.definitive == (if uncertain then s.history.definitive else s.history.definitive + {token})
    requires
      var n := |s.history.resolutions|;
      || t.history.resolutions == s.history.resolutions
      || (&& |t.history.resolutions| == n + 1 && t.history.resolutions[..n] == s.history.resolutions
          && t.history.resolutions[n].token == token && t.history.resolutions[n].uncertain == uncertain)
    ensures KindsOk(t)
  {
    forall k | 0 <= k < |s.history.resolutions|
      ensures t.history.resolutions[k] == s.history.resolutions[k]
    {
      if t.history.resolutions != s.history.resolutions {
        assert t.history.resolutions[k] == t.history.resolutions[..|s.history.resolutions|][k];
      }
    }
  }

  lemma FinalizeKeepsKinds(s: System, token: Uuid, now: int, entropy: nat, batch: set<Uuid>)
    requires Inv(s) && KindsOk(s)
    ensures KindsOk(Apply(s, FinalizeAttempt(token, now, entropy, batch)))
  {
    assert token in s.workers ==> WorkerOk(s, token);
    if Finalizes(s, token, now, entropy, batch) {
      var w := s.workers[token];
      FinalizeRecords(s, token, now, entropy, batch);
      RecordKeepsKinds(s, Apply(s, FinalizeAttempt(token, now, entropy, batch)), token,
                       w.phase.invoked && w.phase.resolution.IsUncertain());
    } else {
      FinalizeSkips(s, token, now, entropy, batch);
    }
  }

  lemma OtherStepsKeepKinds(s: System, step: Step)
    requires KindsOk(s) && !step.FinalizeAttempt?
    ensures KindsOk(Apply(s, step))
  {
    var t := Apply(s, step);
    WorkersAreFresh(s, step);
    assert t.history.resolutions == s.history.resolutions && t.history.definitive == s.history.definitive;
  }

  lemma WorkersAreFresh(s: System, step: Step)
    ensures s.history.issued <= Apply(s, step).history.issued
    ensures forall token | token in Apply(s, step).workers :: token in s.workers || token !in s.history.issued
    ensures !step.FinalizeAttempt? ==>
              Apply(s, step).history.resolutions == s.history.resolutions
              && Apply(s, step).history.definitive == s.history.definitive
  {
  }

  lemma {:induction false} RunKeepsKinds(config: WorkerConfig, clock: int, steps: seq<Step>)
    requires config.Valid()
    ensures KindsOk(Run(Init(config, clock), steps))
    decreases |steps|
  {
    if steps != [] {
      var before := Run(Init(config, clock), steps[..|steps| - 1]);
      RunKeepsKinds(config, clock, steps[..|steps| - 1]);
      match steps[|steps| - 1] {
        case FinalizeAttempt(token, now, entropy, batch) =>
          Reachable(config, clock, steps[..|steps| - 1]);
          FinalizeKeepsKinds(before, token, now, entropy, batch);
        case other => OtherStepsKeepKinds(before, other);
      }
    }
  }

  /** Of any two calls ever authorized for one intent, one was over when the other was
      authorized: finalized, or past its effect deadline by the margin. */
  lemma EarlierCallIsOver(s: System, config: WorkerConfig, clock: int, steps: seq<Step>, a: Uuid, b: Uuid)
    requires IsReachable(s, config, clock, steps)
    requires a in s.history.authorized && b in s.history.authorized && a != b
    requires s.history.authorized[a].id == s.history.authorized[b].id
    ensures Precedes(s, a, b) || Precedes(s, b, a)
  {
    RunKeepsWindows(config, clock, steps);
  }

  /** A second call is authorized while the first may still act exactly when the first was
      finalized with an uncertain answer: inside its deadline and the margin, either that
      happened before, or a definitive finalization of the first had released it. */
  lemma CallsMeetOnlyAfterUncertainAnswers(s: System, config: WorkerConfig, clock: int, steps: seq<Step>, a: Uuid,
                                           b: Uuid)
    requires IsReachable(s, config, clock, steps)
    requires a in s.history.authorized && b in s.history.authorized && a != b && Precedes(s, a, b)
    requires s.history.authorized[b].at < s.history.authorized[a].deadline + config.budget.MarginSeconds()
    ensures
      var upTo := s.history.authorized[b].resolved;
      && (Unresolved(s.history, a) <==> Finalized(s.history, a, true, upTo))
      && (!Unresolved(s.history, a) <==> Finalized(s.history, a, false, upTo))
  {
    ReachableFacts(s, config, clock, steps);
    RunKeepsKinds(config, clock, steps);
  }

  /* ---------------------------- one intent a credential ----------------------- */

  ghost predicate HashesDiffer(intents: map<Uuid, Intent>) {
    forall a, b | a in intents && b in intents && intents[a].credential.hash == intents[b].credential.hash :: a == b
  }

  /** Steps other than enqueueing neither add intents nor change their credentials. */
  lemma StepKeepsCredentials(s: System, step: Step)
    requires !step.EnqueueIntent?
    ensures forall id | id in Apply(s, step).tables.intents ::
              id in s.tables.intents && Apply(s, step).tables.intents[id].credential == s.tables.intents[id].credential
  {
    match step {
      case ClaimIntent(g, target, id, token, now, claimedAt) => ClaimEffectOnCredential(s, step);
      case FinalizeAttempt(token, now, entropy, batch) => FinalizeRows(s, token, now, entropy, batch);
      case _ =>
    }
  }

  lemma ClaimEffectOnCredential(s: System, step: Step)
    requires step.ClaimIntent?
    ensures forall id | id in Apply(s, step).tables.intents ::
              id in s.tables.intents && Apply(s, step).tables.intents[id].credential == s.tables.intents[id].credential
  {
  }

  /** In every run a credential hash belongs to at most one intent, so cancelling by hash
      reaches at most one. */
  lemma {:induction false} OneIntentPerCredential(config: WorkerConfig, clock: int, steps: seq<Step>)
    ensures HashesDiffer(Run(Init(config, clock), steps).tables.intents)
    decreases |steps|
  {
    if steps != [] {
      var before := Run(Init(config, clock), steps[..|steps| - 1]);
      var step := steps[|steps| - 1];
      OneIntentPerCredential(config, clock, steps[..|steps| - 1]);
      if !step.EnqueueIntent? {
        StepKeepsCredentials(before, step);
      }
    }
  }
}
