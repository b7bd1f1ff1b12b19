/** The WorkOS transactions as they run: statement by statement on tables updated in
    place, each proved to have exactly the effect of its specification in `WorkosLedger`. */
module WorkosStore {
  import opened Basics
  import opened Wrappers
  import opened WorkosLedger
  import opened WorkosSafety
  import opened WorkosSessions

  class Store {
    var bindings: map<Subject, Binding>
    var methods: map<Id, AuthMethod>
    var providers: map<Sid, ProviderSession>
    var tombstones: map<Sid, Tombstone>
    var erasedSubjects: set<Subject>
    var exchanges: map<Assertion, Exchange>
    var sessions: map<SessionRef, LocalSession>
    var retiredKeys: set<KeyId>
    var disabledPrincipals: set<Id>

    ghost function View(): Ledger
      reads this
    {
      Ledger(bindings, methods, providers, tombstones, erasedSubjects, exchanges, sessions, retiredKeys,
             disabledPrincipals)
    }

    constructor ()
      ensures View() == Ledger(map[], map[], map[], map[], {}, map[], map[], {}, {})
    {
      bindings, methods, providers, tombstones := map[], map[], map[], map[];
      erasedSubjects, exchanges, sessions, retiredKeys, disabledPrincipals := {}, map[], map[], {}, {};
    }

    /** What a rolled-back transaction leaves: everything as it was. */
    method Restore(l: Ledger)
      modifies this
      ensures View() == l
    {
      bindings, methods, providers, tombstones := l.bindings, l.methods, l.providers, l.tombstones;
      erasedSubjects, exchanges, sessions := l.erasedSubjects, l.exchanges, l.sessions;
      retiredKeys, disabledPrincipals := l.retiredKeys, l.disabledPrincipals;
    }

    method Snapshot() returns (l: Ledger)
      ensures l == View()
    {
      l := Ledger(bindings, methods, providers, tombstones, erasedSubjects, exchanges, sessions, retiredKeys,
                  disabledPrincipals);
    }

    method EnforceTombstoneBoundary(a: Assertion) returns (rejection: Option<Rejection>)
      ensures rejection == TombstoneRejection(View(), a)
      ensures rejection.None? <==> a.subject !in erasedSubjects && a.sid !in tombstones
      ensures rejection == Some(LogoutRequired(a.sid)) <==> a.subject !in erasedSubjects && a.sid in tombstones
      ensures a.subject in erasedSubjects ==> rejection == Some(Unauthorized)
    {
      var subjectTombstoned, sessionTombstoned := a.subject in erasedSubjects, a.sid in tombstones;
      if subjectTombstoned {
        return Some(Unauthorized);
      }
      if sessionTombstoned {
        return Some(LogoutRequired(a.sid));
      }
      return None;
    }

    /** Bind the provider session and consume the assertion; on a failure the caller rolls back. */
    method ClaimProviderSession(a: Assertion, b: Binding, linking: Option<SessionRef>, now: int)
      returns (result: Result<(), Rejection>)
      modifies this`exchanges, this`providers
      ensures match Claim(old(View()), a, b, linking, now)
              case Success(l) => result == Success(()) && View() == l
              case Failure(e) => result == Failure(e)
    {
      if a.expiresAt <= now {
        return Failure(Unauthorized);
      }
      if a.key in retiredKeys {
        return Failure(Unauthorized);
      }
      exchanges := map x | x in exchanges && exchanges[x].expiresAt > now :: exchanges[x];
      var rejection := EnforceTombstoneBoundary(a);
      if rejection.Some? {
        return Failure(rejection.value);
      }
      if a.sid !in providers {
        providers := providers[a.sid := ProviderSession(a.subject, b, true, now, now, a.expiresAt, None)];
      } else {
        var row := providers[a.sid];
        if !row.active || row.subject != a.subject || row.binding != b {
          return Failure(Unauthorized);
        }
        if row.lastSeenAt < now {
          row := row.(lastSeenAt := now);
        }
        if row.accessExpiresAt < a.expiresAt {
          row := row.(accessExpiresAt := a.expiresAt);
        }
        providers := providers[a.sid := row];
      }
      if a in exchanges {
        return Failure(AlreadyExchanged);
      }
      exchanges := exchanges[a := Exchange(a.sid, now, a.expiresAt, linking)];
      return Success(());
    }

    /** Seal one provider session; on a failure the caller rolls back. */
    method EndProviderSession(sid: Sid, b: Binding, now: int, reason: Reason) returns (result: Result<(), Rejection>)
      modifies this`providers, this`tombstones
      ensures match End(old(View()), sid, b, now, reason)
              case Success(l) => result == Success(()) && View() == l
              case Failure(e) => result == Failure(e)
    {
      if sid !in providers {
        return Failure(Unauthorized);
      }
      var row := providers[sid];
      if !row.active || row.binding != b {
        return Failure(Unauthorized);
      }
      var at := if now >= row.lastSeenAt then now else row.lastSeenAt;
      providers := providers[sid := row.(active := false, loggedOutAt := Some(at))];
      if sid in tombstones {
        return Failure(Unauthorized);
      }
      tombstones := tombstones[sid := Tombstone(at, reason)];
      return Success(());
    }

    /** Whether a session may be used now, and its own row. */
    method IsEligible(ref: SessionRef, now: int) returns (eligible: bool)
      ensures eligible == Eligible(View(), ref, now)
      ensures eligible ==> ref in sessions && Live(sessions[ref], now) && sessions[ref].principal !in disabledPrincipals
    {
      if ref !in sessions {
        return false;
      }
      var s := sessions[ref];
      if s.revokedAt.Some? || s.expiresAt <= now || s.idleExpiresAt <= now {
        return false;
      }
      if s.key.Some? && s.key.value in retiredKeys {
        return false;
      }
      if s.principal in disabledPrincipals || s.provider.Some? != s.key.Some? {
        return false;
      }
      if s.methodId.None? {
        return s.provider.None?;
      }
      return s.methodId.value in methods && methods[s.methodId.value] == AuthMethod(s.principal, true);
    }

    method UseSession(ref: SessionRef, policy: SessionPolicy, now: int) returns (eligible: bool)
      modifies this`sessions
      ensures eligible == Eligible(old(View()), ref, now) && View() == Slide(old(View()), ref, policy, now)
      // Nothing but this session's idle window moves, only while it is live, only forward and
      // once a quarter of it is gone, and never past its expiry or one full window from now.
      ensures sessions.Keys == old(sessions).Keys
      ensures forall r | r in sessions ::
                && sessions[r] == old(sessions)[r].(idleExpiresAt := sessions[r].idleExpiresAt)
                && old(sessions)[r].idleExpiresAt <= sessions[r].idleExpiresAt
      ensures forall r | r in sessions && sessions[r] != old(sessions)[r] ::
                && r == ref && eligible && Live(old(sessions)[r], now)
                && sessions[r].idleExpiresAt <= sessions[r].expiresAt
                && sessions[r].idleExpiresAt <= now + policy.idleSeconds
                && policy.idleSeconds - (old(sessions)[r].idleExpiresAt - now) > policy.idleSeconds / 4
      // Where at least a quarter of the window is gone, all that may be had is had.
      ensures eligible && policy.idleSeconds - (old(sessions)[ref].idleExpiresAt - now) > policy.idleSeconds / 4 ==>
                || sessions[ref].idleExpiresAt >= now + policy.idleSeconds
                || sessions[ref].idleExpiresAt >= sessions[ref].expiresAt
    {
      eligible := IsEligible(ref, now);
      if eligible {
        var s := sessions[ref];
        var elapsed := policy.idleSeconds - (s.idleExpiresAt - now);
        if elapsed > policy.idleSeconds / 4 {
          var next := now + policy.idleSeconds;
          if s.expiresAt < next {
            next := s.expiresAt;
          }
          if next > s.idleExpiresAt {
            sessions := sessions[ref := s.(idleExpiresAt := next)];
          }
        }
      }
    }

    /** Whether a revoked session's provider logout has been committed. */
    method IsCompletedLogout(ref: SessionRef, now: int) returns (completed: bool)
      ensures completed == CompletedLogout(View(), ref, now)
      ensures Consistent(View()) && ref in sessions ==>
                var s := sessions[ref];
                completed <==>
                  && s.revokedAt.Some? && now < s.expiresAt && now < s.idleExpiresAt
                  && s.provider.Some? && s.provider.value in tombstones
    {
      if Consistent(View()) && ref in sessions {
        CompletedLogoutExactly(View(), ref, now);
      }
      if ref !in sessions || sessions[ref].revokedAt.None? {
        return false;
      }
      var s := sessions[ref];
      if s.expiresAt <= now || s.idleExpiresAt <= now || s.provider.None? || s.methodId.None? {
        return false;
      }
      var sid, methodId := s.provider.value, s.methodId.value;
      if methodId !in methods || methods[methodId].principal != s.principal {
        return false;
      }
      return sid in providers && sid in tombstones && !providers[sid].active
          && providers[sid].binding == Binding(s.principal, methodId);
    }

    method LogoutSession(ref: SessionRef, now: int) returns (result: Result<(), Rejection>)
      modifies this
      ensures match Logout(old(View()), ref, now)
              case Success(l) => result == Success(()) && View() == l
              case Failure(e) => result == Failure(e) && View() == old(View())
    {
      var completed := IsCompletedLogout(ref, now);
      if completed {
        return Success(());
      }
      var before := Snapshot();
      var eligible := IsEligible(ref, now);
      if !eligible {
        return Failure(Unauthorized);
      }
      var s := sessions[ref];
      if s.provider.None? {
        sessions := sessions[ref := s.(revokedAt := Some(now))];
        return Success(());
      }
      if s.methodId.None? {
        return Failure(Unauthorized);
      }
      var ended := EndProviderSession(s.provider.value, Binding(s.principal, s.methodId.value), now, LoggedOut);
      if ended.Failure? {
        Restore(before);
        return Failure(ended.error);
      }
      var scope := set r | r in sessions && sessions[r].principal == s.principal
                           && sessions[r].provider == s.provider && sessions[r].revokedAt.None?;
      assert ref in scope;
      sessions := map r | r in sessions :: if r in scope then sessions[r].(revokedAt := Some(now)) else sessions[r];
      return Success(());
    }

    method RotateSession(ref: SessionRef, successor: SessionRef, policy: SessionPolicy, now: int)
      returns (result: Result<(), Rejection>)
      modifies this`sessions
      ensures match Rotate(old(View()), ref, successor, policy, now)
              case Success(l) => result == Success(()) && View() == l
              case Failure(e) => result == Failure(e) && View() == old(View())
      // The session is revoked now, and a successor that inherits all but the idle window takes its place.
      ensures result.Success? ==>
                && Eligible(old(View()), ref, now) && successor !in old(sessions)
                && sessions.Keys == old(sessions).Keys + {successor}
                && sessions[ref] == old(sessions)[ref].(revokedAt := Some(now))
                && Succeeds(sessions[successor], old(sessions)[ref], policy, now)
                && forall r | r in old(sessions) && r != ref :: sessions[r] == old(sessions)[r]
    {
      var eligible := IsEligible(ref, now);
      if !eligible || successor in sessions {
        return Failure(Unauthorized);
      }
      var s := sessions[ref];
      var idleExpiresAt := now + policy.idleSeconds;
      if s.expiresAt < idleExpiresAt {
        idleExpiresAt := s.expiresAt;
      }
      sessions := sessions[ref := s.(revokedAt := Some(now))];
      sessions := sessions[successor := s.(idleExpiresAt := idleExpiresAt)];
      return Success(());
    }

    method RegisterMethod(methodId: Id, principal: Id) returns (registered: bool)
      modifies this`methods
      ensures View() == Register(old(View()), methodId, principal)
      ensures registered <==> methodId !in old(methods) && principal !in disabledPrincipals
    {
      registered := methodId !in methods && principal !in disabledPrincipals;
      if registered {
        methods := methods[methodId := AuthMethod(principal, true)];
      }
    }

    method EnableMethod(methodId: Id)
      modifies this`methods
      ensures View() == Enable(old(View()), methodId)
    {
      if methodId in methods && methods[methodId].principal !in disabledPrincipals {
        var bound := exists subject :: subject in bindings && bindings[subject].methodId == methodId;
        if !bound {
          methods := methods[methodId := methods[methodId].(active := true)];
        }
      }
    }

    method RetireSigningKey(key: KeyId, now: int)
      modifies this`sessions, this`retiredKeys
      ensures View() == RetireKey(old(View()), key, now)
    {
      retiredKeys := retiredKeys + {key};
      var vouched := set r | r in sessions && sessions[r].key == Some(key) && Live(sessions[r], now);
      sessions := map r | r in sessions :: if r in vouched then sessions[r].(revokedAt := Some(now)) else sessions[r];
    }

    /** Resolve a sign-in to a bound subject, or admit a new one. */
    method ResolveSubject(a: Assertion, admission: Option<Binding>) returns (result: Result<Binding, Rejection>)
      modifies this`bindings, this`methods
      ensures match Resolve(old(View()), a, admission)
              case Success(l) => View() == l && a.subject in l.bindings && result == Success(l.bindings[a.subject])
              case Failure(e) => result == Failure(e)
    {
      var rejection := EnforceTombstoneBoundary(a);
      if rejection.Some? {
        return Failure(rejection.value);
      }
      if a.subject in bindings {
        var b := bindings[a.subject];
        if b.principal !in disabledPrincipals
           && b.methodId in methods && methods[b.methodId] == AuthMethod(b.principal, true)
           && a.key !in retiredKeys
        {
          return Success(b);
        }
      }
      if admission.None? {
        return Failure(Unauthorized);
      }
      if a.subject in bindings {
        return Failure(AlreadyLinked);
      }
      var b := admission.value;
      if a.key in retiredKeys || b.principal in disabledPrincipals {
        return Failure(Unauthorized);
      }
      if b.methodId in methods {
        return Failure(Malformed);
      }
      methods := methods[b.methodId := AuthMethod(b.principal, true)];
      bindings := bindings[a.subject := b];
      return Success(b);
    }

    /** Mint a session that lives at all, no longer than its assertion. */
    method IssueSession(a: Assertion, b: Binding, ref: SessionRef, policy: SessionPolicy, now: int)
      returns (issued: bool)
      modifies this`sessions
      ensures issued <==> ref !in old(sessions) && Live(MintedSession(a, b, policy, now), now)
      ensures issued ==>
                && sessions == old(sessions)[ref := MintedSession(a, b, policy, now)]
                && MintedFrom(sessions[ref], a, b, policy, now)
      ensures !issued ==> sessions == old(sessions)
    {
      var expiresAt := Min(now + policy.ttlSeconds, a.expiresAt);
      var idleExpiresAt := Min(now + policy.idleSeconds, expiresAt);
      issued := expiresAt > now && idleExpiresAt > now && ref !in sessions;
      if issued {
        sessions := sessions[ref := LocalSession(b.principal, Some(b.methodId), Some(a.sid), Some(a.key),
                                                 Min(a.issuedAt, now), expiresAt, idleExpiresAt, None)];
      }
    }

    method CreateSession(a: Assertion, admission: Option<Binding>, ref: SessionRef, policy: SessionPolicy, now: int)
      returns (result: Result<(), Rejection>)
      modifies this
      ensures match SignIn(old(View()), a, admission, ref, policy, now)
              case Success(l) => result == Success(()) && View() == l
              case Failure(e) => result == Failure(e) && View() == old(View())
      // One session is added, minted from the assertion for the subject's identity.
      ensures result.Success? ==>
                && ref !in old(sessions) && ref in sessions && sessions == old(sessions)[ref := sessions[ref]]
                && a.subject in bindings && MintedFrom(sessions[ref], a, bindings[a.subject], policy, now)
    {
      if a.expiresAt <= now {
        return Failure(Unauthorized);
      }
      var before := Snapshot();
      var resolved := ResolveSubject(a, admission);
      if resolved.Failure? {
        Restore(before);
        return Failure(resolved.error);
      }
      var b := resolved.value;
      var claimed := ClaimProviderSession(a, b, None, now);
      if claimed.Failure? {
        Restore(before);
        return Failure(claimed.error);
      }
      var issued := IssueSession(a, b, ref, policy, now);
      if !issued {
        Restore(before);
        return Failure(Malformed);
      }
      return Success(());
    }

    /** Attach a new identity, or reactivate a disabled one; on a failure the caller rolls back. */
    method AttachSubject(a: Assertion, principal: Id, newMethod: Id) returns (result: Result<Binding, Rejection>)
      modifies this`bindings, this`methods
      ensures match Attach(old(View()), a, principal, newMethod)
              case Success(l) => View() == l && a.subject in l.bindings && result == Success(l.bindings[a.subject])
              case Failure(e) => result == Failure(e)
    {
      if principal in disabledPrincipals {
        return Failure(Unauthorized);
      }
      var discovered: Option<Binding> := None;
      if a.subject in bindings {
        discovered := Some(bindings[a.subject]);
        var b := bindings[a.subject];
        if b.principal != principal {
          return Failure(AlreadyLinked);
        }
        if b.methodId !in methods || methods[b.methodId].principal != principal {
          return Failure(Unauthorized);
        }
        if methods[b.methodId].active {
          return Failure(AlreadyLinked);
        }
      }
      if a.key in retiredKeys {
        return Failure(Unauthorized);
      }
      if discovered.Some? {
        var methodId := discovered.value.methodId;
        methods := methods[methodId := methods[methodId].(active := true)];
        return Success(discovered.value);
      }
      if newMethod in methods {
        return Failure(Malformed);
      }
      methods := methods[newMethod := AuthMethod(principal, true)];
      bindings := bindings[a.subject := Binding(principal, newMethod)];
      return Success(Binding(principal, newMethod));
    }

    method AddWorkosMethod(a: Assertion, ref: SessionRef, newMethod: Id, policy: SessionPolicy, now: int)
      returns (result: Result<Id, Rejection>)
      modifies this
      ensures match Link(old(View()), a, ref, newMethod, policy, now)
              case Success((l, m)) => result == Success(m) && View() == l
              case Failure(e) => result == Failure(e) && View() == old(View())
    {
      var eligible := IsEligible(ref, now);
      if !eligible {
        return Failure(Unauthorized);
      }
      if now - sessions[ref].authenticatedAt > policy.recentSeconds {
        return Failure(RecentAuthRequired);
      }
      if a.expiresAt <= now {
        return Failure(Unauthorized);
      }
      var before := Snapshot();
      var precheck := LinkPrecheck(before, a);
      if precheck.Some? {
        return Failure(precheck.value);
      }
      var principal := sessions[ref].principal;
      var completed := CompletedLink(before, a, principal, ref, now);
      if completed.Some? {
        return Success(completed.value);
      }
      var rejection := EnforceTombstoneBoundary(a);
      if rejection.Some? {
        return Failure(rejection.value);
      }
      var attached := AttachSubject(a, principal, newMethod);
      if attached.Failure? {
        Restore(before);
        return Failure(attached.error);
      }
      var b := attached.value;
      var claimed := ClaimProviderSession(a, b, Some(ref), now);
      if claimed.Failure? {
        Restore(before);
        return Failure(claimed.error);
      }
      var ended := EndProviderSession(a.sid, b, now, LinkCompleted);
      if ended.Failure? {
        Restore(before);
        return Failure(ended.error);
      }
      return Success(b.methodId);
    }
  }
}
