/** What the WorkOS ledger owes to the order of its clock readings: assertions are exchanged
    once, and dead sessions stay dead, exactly as long as readings do not run back. */
module WorkosReadings {
  import opened Basics
  import opened Wrappers
  import opened WorkosLedger
  import opened WorkosSafety

  /* --------------------------- assertions are consumed ------------------------ */

  /** In runs with readings in any order, an assertion is exchanged twice only if readings
      ran back across its expiry: collected at a reading on or after it, exchanged again at
      one before it. */
  lemma ExchangedTwiceOnlyBackwards(clock: int, steps: seq<Step>, j: int, k: int)
    requires
      var w := Run(Init(clock), steps);
      0 <= j < k < |w.exchanged| == |w.exchangedAt| && w.exchanged[j] == w.exchanged[k]
    ensures ReadingsRanBack(Run(Init(clock), steps), j, k)
  {
    Reachable(clock, steps);
  }

  /** Each step reads the clock no earlier than the steps that committed before it. */
  ghost predicate Ordered(steps: seq<Step>) {
    forall i, j | 0 <= i < j < |steps| :: steps[i].now <= steps[j].now
  }

  ghost predicate Sorted(readings: seq<int>, bound: int) {
    && (forall i, j | 0 <= i < j < |readings| :: readings[i] <= readings[j])
    && (forall i | 0 <= i < |readings| :: readings[i] <= bound)
  }

  lemma StepReads(w: World, step: Step)
    ensures Apply(w, step).exchangedAt in {w.exchangedAt, w.exchangedAt + [step.now]}
  {
  }

  lemma {:induction false} OrderedReadings(clock: int, steps: seq<Step>, bound: int)
    requires Ordered(steps) && forall i | 0 <= i < |steps| :: steps[i].now <= bound
    ensures Sorted(Run(Init(clock), steps).exchangedAt, bound)
    decreases |steps|
  {
    if steps != [] {
      var last := steps[|steps| - 1];
      OrderedReadings(clock, steps[..|steps| - 1], last.now);
      StepReads(Run(Init(clock), steps[..|steps| - 1]), last);
    }
  }

  lemma SortedNeverRanBack(w: World, j: int, k: int, bound: int)
    requires 0 <= j < k < |w.exchanged| == |w.exchangedAt| && Sorted(w.exchangedAt, bound)
    ensures !ReadingsRanBack(w, j, k)
  {
  }

  lemma LogsAreParallel(clock: int, steps: seq<Step>)
    ensures |Run(Init(clock), steps).exchanged| == |Run(Init(clock), steps).exchangedAt|
  {
    Reachable(clock, steps);
  }

  lemma EarlierIsOther(clock: int, steps: seq<Step>, j: int, k: int)
    requires Ordered(steps) && 0 <= j < k < |Run(Init(clock), steps).exchanged|
    ensures Run(Init(clock), steps).exchanged[j] != Run(Init(clock), steps).exchanged[k]
  {
    if steps != [] {
      var w := Run(Init(clock), steps);
      var bound := steps[|steps| - 1].now;
      LogsAreParallel(clock, steps);
      OrderedReadings(clock, steps, bound);
      SortedNeverRanBack(w, j, k, bound);
      if w.exchanged[j] == w.exchanged[k] {
        ExchangedTwiceOnlyBackwards(clock, steps, j, k);
      }
    }
  }

  /** No run with ordered readings exchanges an assertion twice, although expired exchange
      rows are deleted. */
  lemma AssertionsExchangeOnce(clock: int, steps: seq<Step>, j: int, k: int)
    requires Ordered(steps)
    requires
      var w := Run(Init(clock), steps);
      0 <= j < |w.exchanged| && 0 <= k < |w.exchanged| && w.exchanged[j] == w.exchanged[k]
    ensures j == k
  {
    if j != k {
      EarlierIsOther(clock, steps, Min(j, k), Max(j, k));
    }
  }

  /** A ledger in which the assertions of one subject and provider session sign in again. */
  ghost predicate SignsInAgain(l: Ledger) {
    var b := Binding(1, 1);
    && l.bindings == map["subject" := b] && l.methods == map[1 := AuthMethod(1, true)]
    && l.tombstones == map[] && l.erasedSubjects == {} && l.retiredKeys == {} && l.disabledPrincipals == {}
    && "sid" in l.providers && l.providers["sid"].active
    && l.providers["sid"].subject == "subject" && l.providers["sid"].binding == b
  }

  const LONG: SessionPolicy := SessionPolicy(100, 100, 100)

  function Signed(token: string, expiresAt: int): Assertion {
    Assertion(token, "sid", "subject", "key", 0, expiresAt)
  }

  lemma AgainExchanges(w: World, a: Assertion, ref: SessionRef, now: int) returns (step: Step, t: World)
    requires SignsInAgain(w.ledger) && ref !in w.ledger.sessions
    requires a == Signed(a.token, a.expiresAt) && now < a.expiresAt && a !in Unexpired(w.ledger, now)
    ensures step.now == now && t == Apply(w, step)
    ensures SignsInAgain(t.ledger) && t.exchanged == w.exchanged + [a]
    ensures t.ledger.sessions.Keys == w.ledger.sessions.Keys + {ref}
    ensures t.ledger.exchanges.Keys == Unexpired(w.ledger, now).Keys + {a}
  {
    step := DoSignIn(a, None, ref, LONG, now);
    t := Apply(w, step);
  }

  lemma FirstExchanges(a: Assertion) returns (step: Step, t: World)
    requires a == Signed(a.token, a.expiresAt) && 0 < a.expiresAt
    ensures step.now == 0 && t == Apply(Init(0), step)
    ensures SignsInAgain(t.ledger) && t.exchanged == [a] && t.ledger.sessions.Keys == {1}
    ensures t.ledger.exchanges.Keys == {a} && t.ledger.exchanges[a].expiresAt == a.expiresAt
  {
    step := DoSignIn(a, Some(Binding(1, 1)), 1, LONG, 0);
    t := Apply(Init(0), step);
  }

  lemma RunExtends(w: World, steps: seq<Step>, step: Step)
    ensures Run(w, steps + [step]) == Apply(Run(w, steps), step)
  {
    assert (steps + [step])[..|steps|] == steps;
  }

  /** The first two sign-ins leave no row of the first assertion behind. */
  lemma CollectsFirst(a: Assertion, b: Assertion) returns (steps: seq<Step>, w: World)
    requires a == Signed(a.token, 10) && b == Signed(b.token, 20)
    ensures w == Run(Init(0), steps) && w.exchanged == [a, b]
    ensures SignsInAgain(w.ledger) && 3 !in w.ledger.sessions && a !in w.ledger.exchanges
  {
    var first, w1 := FirstExchanges(a);
    RunExtends(Init(0), [], first);
    steps, w := CollectsNext([] + [first], w1, a, b);
  }

  lemma CollectsNext(before: seq<Step>, w1: World, a: Assertion, b: Assertion) returns (steps: seq<Step>, w: World)
    requires w1 == Run(Init(0), before) && SignsInAgain(w1.ledger)
    requires w1.exchanged == [a] && w1.ledger.sessions.Keys == {1}
    requires w1.ledger.exchanges.Keys == {a} && w1.ledger.exchanges[a].expiresAt == 10
    requires a.expiresAt == 10 && b == Signed(b.token, 20)
    ensures w == Run(Init(0), steps) && w.exchanged == [a, b]
    ensures SignsInAgain(w.ledger) && 3 !in w.ledger.sessions && a !in w.ledger.exchanges
  {
    var second, w2 := AgainExchanges(w1, b, 2, 10);
    RunExtends(Init(0), before, second);
    steps, w := before + [second], w2;
  }

  /** The order is needed: a sign-in at 0, another at the first assertion's expiry, and the
      first assertion again at a reading in between exchange it twice. */
  lemma BackwardsReadingsExchangeTwice()
    ensures exists steps :: Run(Init(0), steps).exchanged == [Signed("a", 10), Signed("b", 20), Signed("a", 10)]
  {
    var (a, b) := (Signed("a", 10), Signed("b", 20));
    var steps, w := CollectsFirst(a, b);
    var third, w3 := AgainExchanges(w, a, 3, 5);
    RunExtends(Init(0), steps, third);
    assert Run(Init(0), steps + [third]).exchanged == [a, b, a];
  }

  /* ----------------------------- sessions stay dead --------------------------- */

  /** Whose session it is, its key, its dates and its revocation stand, and so does the idle
      window; only an erasure takes its provider session away. */
  predicate Kept(s: LocalSession, t: LocalSession) {
    && t.principal == s.principal && t.methodId == s.methodId && t.key == s.key
    && (t.provider == s.provider || t.provider.None?)
    && t.authenticatedAt == s.authenticatedAt && t.expiresAt == s.expiresAt && t.idleExpiresAt == s.idleExpiresAt
    && (s.revokedAt.Some? ==> t.revokedAt == s.revokedAt)
  }

  lemma SignInKeepsSessions(w: World, a: Assertion, admission: Option<Binding>, ref: SessionRef, policy: SessionPolicy,
                            now: int, r: SessionRef)
    requires r in w.ledger.sessions
    ensures
      var t := ApplySignIn(w, a, admission, ref, policy, now).ledger.sessions;
      r in t && t[r] == w.ledger.sessions[r]
  {
    if SignIn(w.ledger, a, admission, ref, policy, now).Success? {
      var b := SignInInStages(w.ledger, a, admission, ref, policy, now);
    }
  }

  lemma LinkKeepsSessions(w: World, a: Assertion, ref: SessionRef, newMethod: Id, policy: SessionPolicy, now: int)
    ensures ApplyLink(w, a, ref, newMethod, policy, now).ledger.sessions == w.ledger.sessions
  {
    var result := Link(w.ledger, a, ref, newMethod, policy, now);
    if result.Success? && result.value.0 != w.ledger {
      var b := LinkInStages(w.ledger, a, ref, newMethod, policy, now);
    }
  }

  /** As it was, or revoked just now. */
  ghost predicate SameOrRevoked(s: LocalSession, t: LocalSession) {
    t == s || (s.revokedAt.None? && t == s.(revokedAt := t.revokedAt))
  }

  lemma SameOrRevokedIsKept(s: LocalSession, t: LocalSession)
    requires SameOrRevoked(s, t)
    ensures Kept(s, t)
  {
  }

  lemma LogoutKeepsSession(w: World, ref: SessionRef, now: int, r: SessionRef)
    requires r in w.ledger.sessions
    ensures
      var t := ApplyLogout(w, ref, now).ledger.sessions;
      r in t && SameOrRevoked(w.ledger.sessions[r], t[r])
  {
  }

  lemma SweepKeepsSession(l: Ledger, id: Id, now: int, r: SessionRef)
    requires r in l.sessions
    ensures r in Disable(l, id, now).sessions && SameOrRevoked(l.sessions[r], Disable(l, id, now).sessions[r])
    ensures r in ErasePrincipal(l, id, now).sessions && Kept(l.sessions[r], ErasePrincipal(l, id, now).sessions[r])
  {
  }

  lemma RotateKeepsSession(w: World, ref: SessionRef, successor: SessionRef, policy: SessionPolicy, now: int,
                           r: SessionRef)
    requires r in w.ledger.sessions
    ensures
      var t := ApplyRotate(w, ref, successor, policy, now).ledger.sessions;
      r in t && SameOrRevoked(w.ledger.sessions[r], t[r])
  {
  }

  lemma RevokingKeepsSession(l: Ledger, refs: set<SessionRef>, key: KeyId, now: int, r: SessionRef)
    requires r in l.sessions
    ensures r in RevokeSome(l, refs, now).sessions && SameOrRevoked(l.sessions[r], RevokeSome(l, refs, now).sessions[r])
    ensures r in RetireKey(l, key, now).sessions && SameOrRevoked(l.sessions[r], RetireKey(l, key, now).sessions[r])
  {
  }

  lemma OtherStepsKeepSessions(w: World, step: Step, r: SessionRef)
    requires r in w.ledger.sessions
    requires step.OpenLocalSession? || step.DoRegister? || step.DoEnable? || step.DoDisablePrincipal?
    ensures r in Transact(w, step).ledger.sessions && Transact(w, step).ledger.sessions[r] == w.ledger.sessions[r]
  {
  }

  /** Whatever a step other than a use does, the session is kept. */
  lemma TransactKeepsSession(w: World, step: Step, ref: SessionRef)
    requires ref in w.ledger.sessions && !step.DoUse?
    ensures ref in Transact(w, step).ledger.sessions
    ensures Kept(w.ledger.sessions[ref], Transact(w, step).ledger.sessions[ref])
  {
    match step {
      case DoSignIn(a, admission, r, policy, now) => SignInKeepsSessions(w, a, admission, r, policy, now, ref);
      case DoLink(a, r, newMethod, policy, now) => LinkKeepsSessions(w, a, r, newMethod, policy, now);
      case DoLogout(r, now) => LogoutKeepsSession(w, r, now, ref);
      case DoRotate(r, successor, policy, now) => RotateKeepsSession(w, r, successor, policy, now, ref);
      case DoDisable(methodId, now) => SweepKeepsSession(w.ledger, methodId, now, ref);
      case DoErase(principal, now) => SweepKeepsSession(w.ledger, principal, now, ref);
      case DoRevoke(refs, now) => RevokingKeepsSession(w.ledger, refs, "", now, ref);
      case DoRetireKey(key, now) => RevokingKeepsSession(w.ledger, {}, key, now, ref);
      case _ => OtherStepsKeepSessions(w, step, ref);
    }
    if !step.DoErase? {
      SameOrRevokedIsKept(w.ledger.sessions[ref], Transact(w, step).ledger.sessions[ref]);
    }
  }

  lemma StepKeepsSessions(w: World, step: Step, ref: SessionRef)
    requires ref in w.ledger.sessions
    ensures ref in Apply(w, step).ledger.sessions
    ensures
      var s := w.ledger.sessions[ref];
      var t := Apply(w, step).ledger.sessions[ref];
      || Kept(s, t)
      || (&& step.DoUse? && step.ref == ref && Eligible(w.ledger, ref, step.now)
          && t == s.(idleExpiresAt := IdleExpiry(step.policy, step.now, s.expiresAt))
          && t.idleExpiresAt > s.idleExpiresAt)
  {
    if !step.DoUse? {
      TransactKeepsSession(w.(clock := Max(w.clock, step.now)), step, ref);
    }
  }

  /** A revoked or expired session stays so over every continuation, in any order of readings. */
  lemma {:induction false} SpentForever(w: World, later: seq<Step>, ref: SessionRef)
    requires ref in w.ledger.sessions && Spent(w.ledger.sessions[ref], w.clock)
    ensures ref in Run(w, later).ledger.sessions && w.clock <= Run(w, later).clock
    ensures Spent(Run(w, later).ledger.sessions[ref], Run(w, later).clock)
    decreases |later|
  {
    if later != [] {
      var t := Run(w, later[..|later| - 1]);
      SpentForever(w, later[..|later| - 1], ref);
      StepKeepsSessions(t, later[|later| - 1], ref);
      StepRemembers(t, later[|later| - 1]);
    }
  }

  /** The sessions that come to life again: those an eligible use at an earlier reading
      finds before their idle expiry and slides past the latest one. */
  lemma RevivesExactly(w: World, step: Step, ref: SessionRef)
    requires ref in w.ledger.sessions && !Live(w.ledger.sessions[ref], w.clock)
    ensures ref in Apply(w, step).ledger.sessions
    ensures
      var s := w.ledger.sessions[ref];
      Live(Apply(w, step).ledger.sessions[ref], Apply(w, step).clock)
      <==>
        && step.DoUse? && step.ref == ref && Eligible(w.ledger, ref, step.now)
        && step.policy.idleSeconds - (s.idleExpiresAt - step.now) > step.policy.idleSeconds / 4
        && IdleExpiry(step.policy, step.now, s.expiresAt) > w.clock
  {
    StepKeepsSessions(w, step, ref);
    StepRemembers(w, step);
  }

  /** With ordered readings a session that is no longer live is never live again. */
  lemma {:induction false} DeadForever(w: World, later: seq<Step>, ref: SessionRef, bound: int)
    requires ref in w.ledger.sessions && !Live(w.ledger.sessions[ref], w.clock)
    requires Ordered(later) && forall i | 0 <= i < |later| :: w.clock <= later[i].now <= bound
    requires w.clock <= bound
    ensures ref in Run(w, later).ledger.sessions && Run(w, later).clock <= bound
    ensures !Live(Run(w, later).ledger.sessions[ref], Run(w, later).clock)
    decreases |later|
  {
    if later != [] {
      var last := later[|later| - 1];
      DeadForever(w, later[..|later| - 1], ref, last.now);
      RevivesExactly(Run(w, later[..|later| - 1]), last, ref);
      StepRemembers(Run(w, later[..|later| - 1]), last);
    }
  }
}
