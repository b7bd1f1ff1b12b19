/** What the WorkOS transactions do to the ledger, said of the rows before and after them: when
    each commits, which rows it writes, and that it leaves every other row alone. */
module WorkosEffects {
  import opened Basics
  import opened Wrappers
  import opened WorkosLedger
  import opened WorkosSafety

  /* --------------------------- provider sessions ------------------------------ */

  ghost predicate Denied(l: Ledger, a: Assertion) {
    a.subject in l.erasedSubjects || a.sid in l.tombstones
  }

  ghost predicate Consumed(l: Ledger, a: Assertion, now: int) {
    a in l.exchanges && now < l.exchanges[a].expiresAt
  }

  /** The row of a provider session that has just been seen with this assertion. */
  ghost predicate SeenBy(l: Ledger, row: ProviderSession, a: Assertion, b: Binding, now: int) {
    && row.subject == a.subject && row.binding == b && row.active && row.loggedOutAt.None?
    && if a.sid in l.providers then
         && row.createdAt == l.providers[a.sid].createdAt
         && row.lastSeenAt == Max(l.providers[a.sid].lastSeenAt, now)
         && row.accessExpiresAt == Max(l.providers[a.sid].accessExpiresAt, a.expiresAt)
       else row.createdAt == now && row.lastSeenAt == now && row.accessExpiresAt == a.expiresAt
  }

  /** Exactly the expired exchanges are collected, and this assertion's is written. */
  ghost predicate Consumes(l: Ledger, t: Ledger, a: Assertion, linking: Option<SessionRef>, now: int) {
    && a in t.exchanges && t.exchanges[a] == Exchange(a.sid, now, a.expiresAt, linking)
    && (forall x | x in t.exchanges && x != a :: x in l.exchanges)
    && (forall x | x in l.exchanges && x != a ::
          && (x in t.exchanges <==> now < l.exchanges[x].expiresAt)
          && (x in t.exchanges ==> t.exchanges[x] == l.exchanges[x]))
  }

  /** Claiming writes the provider session's row and the assertion's, and collects exactly the
      exchanges that have expired. */
  lemma ClaimWrites(l: Ledger, a: Assertion, b: Binding, linking: Option<SessionRef>, now: int)
    requires RowsOk(l) && Claim(l, a, b, linking, now).Success?
    ensures
      var t := Claim(l, a, b, linking, now).value;
      && t == l.(providers := t.providers, exchanges := t.exchanges)
      && a.sid in t.providers && t.providers == l.providers[a.sid := t.providers[a.sid]]
      && SeenBy(l, t.providers[a.sid], a, b, now)
      && Consumes(l, t, a, linking, now)
  {
  }

  /** Why a claim is refused. */
  lemma ClaimRefusals(l: Ledger, a: Assertion, b: Binding, linking: Option<SessionRef>, now: int)
    ensures
      var claim := Claim(l, a, b, linking, now);
      var acceptable := now < a.expiresAt && a.key !in l.retiredKeys;
      && (claim == Failure(LogoutRequired(a.sid)) <==>
            acceptable && a.subject !in l.erasedSubjects && a.sid in l.tombstones)
      && (claim == Failure(AlreadyExchanged) <==>
            acceptable && !Denied(l, a) && MayClaim(l, a, b) && Consumed(l, a, now))
      && (claim == Failure(Unauthorized) <==>
            !acceptable || a.subject in l.erasedSubjects || (!Denied(l, a) && !MayClaim(l, a, b)))
  {
  }

  /** Ending seals the row, no earlier than it was last seen, and leaves the tombstone of that
      moment; only an active session of this identity ends. */
  lemma EndsExactly(l: Ledger, sid: Sid, b: Binding, now: int, reason: Reason)
    requires RowsOk(l)
    ensures
      var end := End(l, sid, b, now, reason);
      && (end.Success? <==> sid in l.providers && l.providers[sid].active && l.providers[sid].binding == b)
      && (end.Failure? ==> end.error == Unauthorized)
      && (end.Success? ==>
            var (t, at) := (end.value, Max(now, l.providers[sid].lastSeenAt));
            && t == l.(providers := t.providers, tombstones := l.tombstones[sid := Tombstone(at, reason)])
            && t.providers == l.providers[sid := l.providers[sid].(active := false, loggedOutAt := Some(at))])
  {
  }

  /* ---------------------------------- sign-in --------------------------------- */

  /** The subject has an active identity, or a fresh one is admitted for it. */
  ghost predicate HasIdentity(l: Ledger, a: Assertion, admission: Option<Binding>) {
    if a.subject in l.bindings then ActiveBinding(l, l.bindings[a.subject])
    else
      && admission.Some? && admission.value.methodId !in l.methods
      && admission.value.principal !in l.disabledPrincipals
  }

  /** A sign-in commits exactly for an unexpired, unconsumed assertion under an unretired key,
      without evidence against it, of a subject with an identity, on a provider session that
      is this subject's if there is one, for a policy that gives a session any life at all. */
  lemma SignsInExactly(l: Ledger, a: Assertion, admission: Option<Binding>, ref: SessionRef, policy: SessionPolicy,
                       now: int)
    requires RowsOk(l)
    ensures
      SignIn(l, a, admission, ref, policy, now).Success? <==>
        && now < a.expiresAt && a.key !in l.retiredKeys && !Denied(l, a) && !Consumed(l, a, now)
        && HasIdentity(l, a, admission)
        && (a.sid in l.providers ==> l.providers[a.sid].subject == a.subject)
        && policy.ttlSeconds > 0 && policy.idleSeconds > 0 && ref !in l.sessions
  {
  }

  /** Why a sign-in is refused, where the caller is told. */
  lemma SignInRefusals(l: Ledger, a: Assertion, admission: Option<Binding>, ref: SessionRef, policy: SessionPolicy,
                       now: int)
    requires RowsOk(l)
    ensures
      var result := SignIn(l, a, admission, ref, policy, now);
      && (result == Failure(LogoutRequired(a.sid)) <==>
            now < a.expiresAt && a.subject !in l.erasedSubjects && a.sid in l.tombstones)
      && (result == Failure(AlreadyLinked) <==>
            && now < a.expiresAt && !Denied(l, a) && a.subject in l.bindings && admission.Some?
            && (!ActiveBinding(l, l.bindings[a.subject]) || a.key in l.retiredKeys))
      && (result == Failure(AlreadyExchanged) <==>
            && now < a.expiresAt && a.key !in l.retiredKeys && !Denied(l, a) && Consumed(l, a, now)
            && HasIdentity(l, a, admission) && (a.sid in l.providers ==> l.providers[a.sid].subject == a.subject))
  {
  }

  /** What a committed sign-in writes besides the session: the identity it admitted, if any,
      the provider session's row, and the consumed assertion. */
  lemma SignInWrites(l: Ledger, a: Assertion, admission: Option<Binding>, ref: SessionRef, policy: SessionPolicy,
                     now: int)
    requires RowsOk(l) && SignIn(l, a, admission, ref, policy, now).Success?
    ensures
      var t := SignIn(l, a, admission, ref, policy, now).value;
      && t == l.(bindings := t.bindings, methods := t.methods, providers := t.providers, exchanges := t.exchanges,
                 sessions := t.sessions)
      && (if a.subject in l.bindings then t.bindings == l.bindings && t.methods == l.methods
          else
            && admission.Some? && t.bindings == l.bindings[a.subject := admission.value]
            && t.methods == l.methods[admission.value.methodId := AuthMethod(admission.value.principal, true)])
      && a.subject in t.bindings && a.sid in t.providers && t.providers == l.providers[a.sid := t.providers[a.sid]]
      && SeenBy(l, t.providers[a.sid], a, t.bindings[a.subject], now)
      && Consumes(l, t, a, None, now)
  {
    var b := SignInInStages(l, a, admission, ref, policy, now);
    var attached := Attached(l, a.subject, b);
    AttachKeepsRows(l, a.subject, b);
    ClaimWrites(attached, a, b, None, now);
    if a.subject in l.bindings {
      assert attached.methods == l.methods && attached.bindings == l.bindings;
    }
  }

  /* ---------------------------------- logout ---------------------------------- */

  /** A logout commits exactly if it is complete already, or the session is eligible and its
      provider session, if it has one, has not ended. */
  lemma LogsOutExactly(w: World, ref: SessionRef, now: int)
    requires Inv(w)
    ensures
      var (l, result) := (w.ledger, Logout(w.ledger, ref, now));
      && (result.Success? <==>
            || CompletedLogout(l, ref, now)
            || (&& Eligible(l, ref, now)
                && (l.sessions[ref].provider.Some? ==> l.sessions[ref].provider.value !in l.tombstones)))
      && (result.Failure? ==> result.error == Unauthorized)
      && (CompletedLogout(l, ref, now) ==> result == Success(l))
  {
    if ref in w.ledger.sessions {
      assert SessionOk(w, w.ledger.sessions[ref]);
    }
  }

  /** A logout that is not complete yet revokes, now, exactly the sessions of its scope: the
      unrevoked ones of the same principal and provider session, or the one session that has
      no provider session. The provider session ends with them. */
  lemma LogoutWrites(w: World, ref: SessionRef, now: int)
    requires Inv(w) && Eligible(w.ledger, ref, now) && Logout(w.ledger, ref, now).Success?
    ensures
      var (l, t, s) := (w.ledger, Logout(w.ledger, ref, now).value, w.ledger.sessions[ref]);
      && t == l.(sessions := t.sessions, providers := t.providers, tombstones := t.tombstones)
      && t.sessions.Keys == l.sessions.Keys
      && (forall r | r in l.sessions ::
            t.sessions[r] ==
              if r == ref || (&& s.provider.Some? && l.sessions[r].provider == s.provider
                              && l.sessions[r].principal == s.principal && l.sessions[r].revokedAt.None?)
              then l.sessions[r].(revokedAt := Some(now)) else l.sessions[r])
      && (match s.provider
          case None => t.providers == l.providers && t.tombstones == l.tombstones
          case Some(sid) =>
            && sid in l.providers
            && var at := Max(now, l.providers[sid].lastSeenAt);
               && t.providers == l.providers[sid := l.providers[sid].(active := false, loggedOutAt := Some(at))]
               && t.tombstones == l.tombstones[sid := Tombstone(at, LoggedOut)])
  {
    assert SessionOk(w, w.ledger.sessions[ref]);
  }
}
