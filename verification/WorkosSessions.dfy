/** Local sessions over their lives: what a sign-in mints, what a rotation hands on and takes
    away, who may use them, and that none outlives the assertion it goes back to. */
module WorkosSessions {
  import opened Wrappers
  import opened WorkosLedger
  import opened WorkosSafety
  import opened WorkosReadings

  /** As late as both limits allow. */
  ghost predicate Reaches(at: int, limit: int, other: int) {
    at <= limit && at <= other && (at == limit || at == other)
  }

  /* ---------------------------------- minting --------------------------------- */

  /** A live session of this identity, vouched for by this assertion: it ends when its time to
      live is over or the assertion expires, and idles out after a full window or with its end. */
  ghost predicate MintedFrom(s: LocalSession, a: Assertion, b: Binding, policy: SessionPolicy, now: int) {
    && s.principal == b.principal && s.methodId == Some(b.methodId)
    && s.provider == Some(a.sid) && s.key == Some(a.key) && s.revokedAt.None?
    && now < s.expiresAt && Reaches(s.expiresAt, a.expiresAt, now + policy.ttlSeconds)
    && now < s.idleExpiresAt && Reaches(s.idleExpiresAt, s.expiresAt, now + policy.idleSeconds)
    && Reaches(s.authenticatedAt, a.issuedAt, now)
  }

  /** A committed sign-in adds exactly one session, minted from its assertion for the identity
      that the subject is bound to. */
  lemma SignInMints(l: Ledger, a: Assertion, admission: Option<Binding>, ref: SessionRef, policy: SessionPolicy,
                    now: int)
    requires SignIn(l, a, admission, ref, policy, now).Success?
    ensures
      var t := SignIn(l, a, admission, ref, policy, now).value;
      && ref !in l.sessions && ref in t.sessions && t.sessions == l.sessions[ref := t.sessions[ref]]
      && a.subject in t.bindings && MintedFrom(t.sessions[ref], a, t.bindings[a.subject], policy, now)
  {
    var b := SignInInStages(l, a, admission, ref, policy, now);
  }

  /* --------------------------------- rotation --------------------------------- */

  /** The successor of a session: everything but the idle window, which starts afresh. */
  ghost predicate Succeeds(next: LocalSession, s: LocalSession, policy: SessionPolicy, now: int) {
    && next.principal == s.principal && next.methodId == s.methodId
    && next.provider == s.provider && next.key == s.key
    && next.authenticatedAt == s.authenticatedAt && next.expiresAt == s.expiresAt && next.revokedAt.None?
    && Reaches(next.idleExpiresAt, now + policy.idleSeconds, s.expiresAt)
  }

  /** Exactly an eligible session is rotated. It is revoked at the rotation, a fresh successor
      takes its place, and no other session and no other table changes. */
  lemma RotatesExactly(l: Ledger, ref: SessionRef, successor: SessionRef, policy: SessionPolicy, now: int)
    ensures
      var rotated := Rotate(l, ref, successor, policy, now);
      && (rotated.Success? <==> Eligible(l, ref, now) && successor !in l.sessions)
      && (rotated.Failure? ==> rotated.error == Unauthorized)
      && (rotated.Success? ==>
            var t := rotated.value;
            && t == l.(sessions := t.sessions)
            && t.sessions.Keys == l.sessions.Keys + {successor}
            && (forall r | r in l.sessions && r != ref :: t.sessions[r] == l.sessions[r])
            && ref in l.sessions && t.sessions[ref].revokedAt == Some(now) && Kept(l.sessions[ref], t.sessions[ref])
            && t.sessions[ref].provider == l.sessions[ref].provider
            && Succeeds(t.sessions[successor], l.sessions[ref], policy, now))
  {
  }

  /** Revocation is for good: at no reading is the session eligible again, in any continuation. */
  lemma {:induction false} RevokedForever(w: World, later: seq<Step>, ref: SessionRef)
    requires ref in w.ledger.sessions && w.ledger.sessions[ref].revokedAt.Some?
    ensures
      var t := Run(w, later);
      && ref in t.ledger.sessions && t.ledger.sessions[ref].revokedAt == w.ledger.sessions[ref].revokedAt
      && forall at :: !Eligible(t.ledger, ref, at)
    decreases |later|
  {
    if later != [] {
      RevokedForever(w, later[..|later| - 1], ref);
      StepKeepsSessions(Run(w, later[..|later| - 1]), later[|later| - 1], ref);
    }
  }

  /** After a rotation the predecessor is never eligible again, while the successor is at once
      if its idle window holds. */
  lemma RotationHandsOver(w: World, ref: SessionRef, successor: SessionRef, policy: SessionPolicy, now: int,
                          later: seq<Step>)
    requires Eligible(w.ledger, ref, now) && successor !in w.ledger.sessions
    ensures
      var t := Apply(w, DoRotate(ref, successor, policy, now));
      && ref in Run(t, later).ledger.sessions
      && Run(t, later).ledger.sessions[ref].revokedAt == Some(now)
      && (forall at :: !Eligible(Run(t, later).ledger, ref, at))
      && (Eligible(t.ledger, successor, now) <==> policy.idleSeconds > 0)
  {
    RotatesExactly(w.ledger, ref, successor, policy, now);
    RevokedForever(Apply(w, DoRotate(ref, successor, policy, now)), later, ref);
  }

  /* ---------------------------------- origins --------------------------------- */

  /** What a step does to the sessions there are not yet. */
  lemma NewSessions(w: World, step: Step, r: SessionRef)
    requires r !in w.ledger.sessions && r in Apply(w, step).ledger.sessions
    ensures
      var s := Apply(w, step).ledger.sessions[r];
      match step
      case DoSignIn(a, _, ref, policy, now) => r == ref && exists b :: MintedFrom(s, a, b, policy, now)
      case DoRotate(ref, successor, policy, now) =>
        r == successor && ref in w.ledger.sessions && Succeeds(s, w.ledger.sessions[ref], policy, now)
      case OpenLocalSession(ref, session, _) => r == ref && s.provider.None? && s.key.None?
      case _ => false
  {
    match step {
      case DoSignIn(a, admission, ref, policy, now) => SignInMints(w.ledger, a, admission, ref, policy, now);
      case DoRotate(ref, successor, policy, now) => RotatesExactly(w.ledger, ref, successor, policy, now);
      case DoLink(a, ref, newMethod, policy, now) => LinkKeepsSessions(w, a, ref, newMethod, policy, now);
      case DoLogout(ref, now) => LogoutAddsNone(w, ref, now);
      case _ =>
    }
  }

  lemma LogoutAddsNone(w: World, ref: SessionRef, now: int)
    ensures ApplyLogout(w, ref, now).ledger.sessions.Keys == w.ledger.sessions.Keys
  {
  }

  /** The assertion that each session goes back to: the one it was minted from, or its
      predecessor's. */
  ghost function Origins(w: World, steps: seq<Step>): map<SessionRef, Assertion>
    decreases |steps|
  {
    if steps == [] then map[]
    else
      var (s, origins) := (Run(w, steps[..|steps| - 1]), Origins(w, steps[..|steps| - 1]));
      var t := Apply(s, steps[|steps| - 1]);
      match steps[|steps| - 1]
      case DoSignIn(a, _, ref, _, _) =>
        if ref in t.ledger.sessions && ref !in s.ledger.sessions then origins[ref := a] else origins
      case DoRotate(ref, successor, _, _) =>
        if ref in origins && successor in t.ledger.sessions && successor !in s.ledger.sessions
        then origins[successor := origins[ref]] else origins
      case _ => origins
  }

  /** A session that keeps within what its assertion vouched for. */
  ghost predicate Within(s: LocalSession, a: Assertion) {
    && s.key == Some(a.key) && s.provider in {Some(a.sid), None}
    && s.expiresAt <= a.expiresAt && s.idleExpiresAt <= s.expiresAt && s.authenticatedAt <= a.issuedAt
  }

  ghost predicate OriginsOk(w: World, origins: map<SessionRef, Assertion>) {
    && origins.Keys <= w.ledger.sessions.Keys
    && (forall r | r in origins :: Within(w.ledger.sessions[r], origins[r]))
    && (forall r | r in w.ledger.sessions && r !in origins ::
          w.ledger.sessions[r].provider.None? && w.ledger.sessions[r].key.None?)
  }

  lemma OldSessionsStayWithin(w: World, step: Step, r: SessionRef, a: Assertion)
    requires r in w.ledger.sessions && Within(w.ledger.sessions[r], a)
    ensures r in Apply(w, step).ledger.sessions && Within(Apply(w, step).ledger.sessions[r], a)
  {
    StepKeepsSessions(w, step, r);
  }

  lemma OldSessionsStayLocal(w: World, step: Step, r: SessionRef)
    requires r in w.ledger.sessions && w.ledger.sessions[r].provider.None? && w.ledger.sessions[r].key.None?
    ensures
      && r in Apply(w, step).ledger.sessions
      && Apply(w, step).ledger.sessions[r].provider.None? && Apply(w, step).ledger.sessions[r].key.None?
  {
    StepKeepsSessions(w, step, r);
  }

  lemma {:induction false} RunKeepsOrigins(clock: int, steps: seq<Step>)
    ensures OriginsOk(Run(Init(clock), steps), Origins(Init(clock), steps))
    decreases |steps|
  {
    if steps != [] {
      var (w, origins) := (Run(Init(clock), steps[..|steps| - 1]), Origins(Init(clock), steps[..|steps| - 1]));
      var (step, t) := (steps[|steps| - 1], Run(Init(clock), steps));
      var after := Origins(Init(clock), steps);
      RunKeepsOrigins(clock, steps[..|steps| - 1]);
      forall r | r in w.ledger.sessions
        ensures r in t.ledger.sessions && (r in after <==> r in origins) && (r in origins ==> after[r] == origins[r])
        ensures r in origins ==> Within(t.ledger.sessions[r], origins[r])
        ensures r !in origins ==> t.ledger.sessions[r].provider.None? && t.ledger.sessions[r].key.None?
      {
        if r in origins {
          OldSessionsStayWithin(w, step, r, origins[r]);
        } else {
          OldSessionsStayLocal(w, step, r);
        }
      }
      forall r | r in t.ledger.sessions && r !in w.ledger.sessions
        ensures if r in after then Within(t.ledger.sessions[r], after[r])
                else t.ledger.sessions[r].provider.None? && t.ledger.sessions[r].key.None?
      {
        NewSessions(w, step, r);
      }
    }
  }

  /** Every session with a provider session goes back to an assertion of that provider session
      and key, and ends, however often it was used or rotated, no later than the assertion
      expires. Its authentication is no more recent than the assertion. */
  lemma NoSessionOutlivesItsAssertion(clock: int, steps: seq<Step>, r: SessionRef)
    requires r in Run(Init(clock), steps).ledger.sessions
    requires Run(Init(clock), steps).ledger.sessions[r].provider.Some?
    ensures r in Origins(Init(clock), steps)
    ensures
      var (s, a) := (Run(Init(clock), steps).ledger.sessions[r], Origins(Init(clock), steps)[r]);
      && s.provider == Some(a.sid) && s.key == Some(a.key)
      && s.expiresAt <= a.expiresAt && s.idleExpiresAt <= a.expiresAt && s.authenticatedAt <= a.issuedAt
      && forall now | a.expiresAt <= now :: !Eligible(Run(Init(clock), steps).ledger, r, now)
  {
    RunKeepsOrigins(clock, steps);
  }

  /* ------------------------------- who may use them --------------------------- */

  /** In every run exactly those sessions are eligible that are live, of an active principal,
      with an active method and an unretired key if they have any; the rest of what is asked
      on every use follows. */
  lemma EligibleExactly(clock: int, steps: seq<Step>, ref: SessionRef, now: int)
    requires ref in Run(Init(clock), steps).ledger.sessions
    ensures
      var l := Run(Init(clock), steps).ledger;
      var s := l.sessions[ref];
      Eligible(l, ref, now) <==>
        && s.revokedAt.None? && now < s.expiresAt && now < s.idleExpiresAt
        && s.principal !in l.disabledPrincipals
        && (s.key.Some? ==> s.key.value !in l.retiredKeys)
        && (s.methodId.Some? ==> s.methodId.value in l.methods && l.methods[s.methodId.value].active)
  {
    Reachable(clock, steps);
    assert SessionOk(Run(Init(clock), steps), Run(Init(clock), steps).ledger.sessions[ref]);
  }
}
