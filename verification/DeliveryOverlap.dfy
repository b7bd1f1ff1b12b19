/** A run in which two calls for one intent can act at once: the first is answered with an
    uncertain failure, keeps its fence, and is retried a second later. */
module DeliveryOverlap {
  import opened Wrappers
  import opened DeliveryTiming
  import opened DeliveryTables
  import opened DeliveryProtocol
  import opened DeliverySafety
  import opened DeliveryTheorems

  const CONFIG: WorkerConfig := WorkerConfig(
    AttemptBudget(40 * SECOND, 5 * SECOND, 10 * SECOND, 5 * SECOND),
    RetryPolicy(SECOND, 60 * SECOND, 3))

  const GATEWAY: Gateway := Gateway("g", "f", true, true)

  const CREDENTIAL: Credential := Credential(Invite, "h")

  const BOUND: map<string, Authority> := map["g" := Authority("f", 0, 0, 0, None, None, None, None)]

  function Row(status: Status, count: int, code: Option<ResultCode>, next: Option<int>, claim: Option<Lease>,
               at: int): Intent {
    Intent("g", CREDENTIAL, 1000, 0, status, count, code, next, None, None, claim, true, at)
  }

  function TablesWith(row: Intent, fences: map<Uuid, Fence>): Tables {
    Tables(map[1 := row], fences, BOUND, {CREDENTIAL})
  }

  lemma RunExtends(s: System, steps: seq<Step>, step: Step)
    ensures Run(s, steps + [step]) == Apply(Run(s, steps), step)
  {
    assert (steps + [step])[..|steps|] == steps;
  }

  lemma ConfigIsValid()
    ensures CONFIG.Valid()
    ensures CONFIG.budget.LeaseSeconds() == 40 && CONFIG.budget.MarginSeconds() == 5
  {
  }

  /** The intent is queued under a bound generation. */
  lemma Queues() returns (steps: seq<Step>, s: System)
    ensures s == Run(Init(CONFIG, 0), steps)
    ensures s.config == CONFIG && s.clock == 0 && s.workers == map[]
    ensures s.tables == TablesWith(Row(Queued, 0, None, Some(0), None, 0), map[])
    ensures s.history.issued == {} && s.history.authorized == map[] && s.history.definitive == {}
    ensures s.history.resolutions == []
  {
    var activate := SetCredential(CREDENTIAL, true);
    var bind := BindGeneration(GATEWAY, 0);
    var enqueue := EnqueueIntent(GATEWAY, 1, CREDENTIAL, 1000, 0);
    var s1 := Apply(Init(CONFIG, 0), activate);
    assert s1.tables == Tables(map[], map[], map[], {CREDENTIAL});
    var s2 := Apply(s1, bind);
    assert s2.tables == Tables(map[], map[], BOUND, {CREDENTIAL});
    s := Apply(s2, enqueue);
    RunExtends(Init(CONFIG, 0), [], activate);
    RunExtends(Init(CONFIG, 0), [] + [activate], bind);
    RunExtends(Init(CONFIG, 0), [] + [activate] + [bind], enqueue);
    steps := [] + [activate] + [bind] + [enqueue];
  }

  /** A row that is due by `at` and has attempts left. */
  ghost predicate IsDue(s: System, row: Intent, token: Uuid, at: int) {
    && s.config == CONFIG && s.workers == map[] && s.clock <= at && 0 <= at < 100
    && s.tables.intents == map[1 := row] && s.tables.authorities == BOUND && s.tables.activeCredentials == {CREDENTIAL}
    && row.provider == "g" && row.credential == CREDENTIAL && row.credentialExpiresAt == 1000 && row.sealed
    && ((row.status.Queued? && row.code.None?)
        || (row.status.RetryableFailed? && row.code.Some? && row.code.value.FailureResult?))
    && row.attemptCount < 3 && row.nextAttemptAt.Some? && row.nextAttemptAt.value <= at
    && token !in s.history.issued && token !in s.tables.fences
  }

  function AttemptAt(row: Intent, token: Uuid, at: int): Attempt {
    Attempt(1, token, GATEWAY, at + 35, CREDENTIAL, 1000, row.attemptCount + 1, true, Automatic, true)
  }

  function ClaimedAt(s: System, row: Intent, token: Uuid, at: int): System {
    s.(clock := at,
    tables := s.tables.(intents := map[1 := ClaimedRow(row, token, Automatic, at, CONFIG)],
                        fences := s.tables.fences[token := Fence("g", at, at + 40)]),
    workers := map[token := Worker(AttemptAt(row, token, at), Held)],
    history := s.history.(issued := s.history.issued + {token}))
  }

  lemma ClaimApplies(s: System, row: Intent, token: Uuid, at: int)
    requires IsDue(s, row, token, at)
    ensures Apply(s, ClaimIntent(GATEWAY, NextDue, 1, token, at, at)) == ClaimedAt(s, row, token, at)
  {
    ConfigIsValid();
  }

  function AuthorizedAt(s: System, row: Intent, token: Uuid, at: int): System {
    ClaimedAt(s, row, token, at).(
    clock := at + 1,
    workers := map[token := Worker(AttemptAt(row, token, at), Calling)],
    history := s.history.(
    issued := s.history.issued + {token},
    authorized := s.history.authorized[
      token := Authorization(1, "g", row.attemptCount + 1, at + 35, at + 1, |s.history.resolutions|)]))
  }

  lemma PrepareApplies(s: System, row: Intent, token: Uuid, at: int)
    requires IsDue(s, row, token, at)
    ensures Apply(ClaimedAt(s, row, token, at), PrepareCall(token, at + 1, false, true))
            == AuthorizedAt(s, row, token, at)
  {
    ConfigIsValid();
    assert Revalidate(ClaimedAt(s, row, token, at).tables, AttemptAt(row, token, at), at + 1, CONFIG).Permitted?;
  }

  /** A due intent is claimed at `at` and its call authorized a second later. */
  lemma Calls(before: seq<Step>, s: System, row: Intent, token: Uuid, at: int) returns (steps: seq<Step>)
    requires s == Run(Init(CONFIG, 0), before) && IsDue(s, row, token, at)
    ensures AuthorizedAt(s, row, token, at) == Run(Init(CONFIG, 0), steps)
  {
    var claim := ClaimIntent(GATEWAY, NextDue, 1, token, at, at);
    var prepare := PrepareCall(token, at + 1, false, true);
    ClaimApplies(s, row, token, at);
    PrepareApplies(s, row, token, at);
    RunExtends(Init(CONFIG, 0), before, claim);
    RunExtends(Init(CONFIG, 0), before + [claim], prepare);
    steps := before + [claim] + [prepare];
  }

  /** A worker on its first attempt holds the only row and has just been answered. */
  ghost predicate IsAnswered(s: System, row: Intent, token: Uuid, at: int) {
    && s.config == CONFIG && s.clock <= at && 0 <= at < 100
    && s.tables.intents == map[1 := row] && row.status.Processing? && row.claim.Some? && row.claim.value.token == token
    && s.tables.activeCredentials == {CREDENTIAL}
    && s.workers.Keys == {token}
    && s.workers[token].phase == Answered(Outcome(UncertainFailure(LocalTransient, None)), true)
    && var a := s.workers[token].attempt;
       && a.id == 1 && a.token == token && a.number == 1 && a.gateway == GATEWAY
       && a.credential == CREDENTIAL && a.credentialExpiresAt == 1000
  }

  function Retried(row: Intent, at: int): Intent {
    SettledRow(row, Settlement(Outcome(UncertainFailure(LocalTransient, None)), Some(at + 1)), at)
  }

  lemma SettlesInASecond(a: Attempt, at: int)
    requires a.number == 1 && a.credentialExpiresAt == 1000 && 0 <= at < 100
    ensures Settle(a, Outcome(UncertainFailure(LocalTransient, None)), at, 0, CONFIG)
            == Settlement(Outcome(UncertainFailure(LocalTransient, None)), Some(at + 1))
  {
    ConfigIsValid();
    RetryDelayIsExact(CONFIG.retry, 1, Some(1), 0);
  }

  /** The intent waits one second, and the fence stays. */
  lemma FinalizeApplies(s: System, row: Intent, token: Uuid, at: int)
    requires IsAnswered(s, row, token, at)
    ensures
      var t := Apply(s, FinalizeAttempt(token, at, 0, {}));
      && t.config == CONFIG && t.clock == at && t.workers == map[]
      && t.tables == s.tables.(intents := map[1 := Retried(row, at)])
      && t.history.authorized == s.history.authorized && t.history.definitive == s.history.definitive
      && t.history.issued == s.history.issued
  {
    SettlesInASecond(s.workers[token].attempt, at);
  }

  /** An uncertain answer is finalized. */
  lemma AnswersUncertainly(before: seq<Step>, s: System, row: Intent, token: Uuid, at: int)
    returns (steps: seq<Step>, t: System)
    requires s == Run(Init(CONFIG, 0), before) && token in s.workers && s.workers[token].phase.Calling?
    requires
      var answered := s.workers[token].(phase := Answered(Outcome(UncertainFailure(LocalTransient, None)), true));
      IsAnswered(s.(workers := s.workers[token := answered]), row, token, at)
    ensures t == Run(Init(CONFIG, 0), steps)
    ensures t.config == CONFIG && t.clock == at && t.workers == map[]
    ensures t.tables == s.tables.(intents := map[1 := Retried(row, at)])
    ensures t.history.authorized == s.history.authorized && t.history.definitive == s.history.definitive
    ensures t.history.issued == s.history.issued
  {
    var answer := ProviderAnswers(token, UncertainFailure(LocalTransient, None));
    var finalize := FinalizeAttempt(token, at, 0, {});
    var answered := Apply(s, answer);
    FinalizeApplies(answered, row, token, at);
    t := Apply(answered, finalize);
    RunExtends(Init(CONFIG, 0), before, answer);
    RunExtends(Init(CONFIG, 0), before + [answer], finalize);
    steps := before + [answer] + [finalize];
  }

  /** Two calls for one intent, both unresolved and inside their effect deadlines. */
  lemma CallsCanOverlap()
    ensures CONFIG.Valid()
    ensures exists steps, a, b ::
              var s := Run(Init(CONFIG, 0), steps);
              && a != b && Unresolved(s.history, a) && Unresolved(s.history, b)
              && s.history.authorized[a].id == s.history.authorized[b].id
              && s.clock < s.history.authorized[a].deadline && s.clock < s.history.authorized[b].deadline
  {
    ConfigIsValid();
    var queued, s0 := Queues();
    var row := s0.tables.intents[1];
    var calling := Calls(queued, s0, row, 101, 0);
    var s1 := AuthorizedAt(s0, row, 101, 0);
    var waiting, s2 := AnswersUncertainly(calling, s1, s1.tables.intents[1], 101, 11);
    var both := Calls(waiting, s2, s2.tables.intents[1], 102, 12);
    var s3 := AuthorizedAt(s2, s2.tables.intents[1], 102, 12);
    assert s3 == Run(Init(CONFIG, 0), both);
    assert Unresolved(s3.history, 101) && Unresolved(s3.history, 102);
  }
}
