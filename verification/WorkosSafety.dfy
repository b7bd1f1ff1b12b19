/** The invariants of the WorkOS ledger and what they say about every run. */
module WorkosSafety {
  import opened Basics
  import opened Wrappers
  import opened WorkosLedger

  /* -------------------------------- invariants -------------------------------- */

  ghost predicate Spent(s: LocalSession, clock: int) {
    s.revokedAt.Some? || s.expiresAt <= clock
  }

  /** A local session belongs to its provider session and method, and is spent once the
      method is disabled, the provider session ended or the signing key retired. One that
      has lost its provider session to an erasure is revoked. */
  ghost predicate SessionOk(w: World, s: LocalSession) {
    var l := w.ledger;
    && (s.methodId.Some? ==> s.methodId.value in l.methods && l.methods[s.methodId.value].principal == s.principal)
    && (s.methodId.Some? && s.methodId.value in l.methods && !l.methods[s.methodId.value].active ==> Spent(s, w.clock))
    && (s.key.Some? && s.key.value in l.retiredKeys ==> !Live(s, w.clock))
    && (s.key.Some? && s.provider.None? ==> s.revokedAt.Some?)
    && (s.provider.Some? ==>
          && s.methodId.Some? && s.key.Some?
          && s.provider.value in l.providers
          && l.providers[s.provider.value].binding == Binding(s.principal, s.methodId.value)
          && (s.provider.value in l.tombstones ==> Spent(s, w.clock))
          && (s.provider.value in w.loggedOut ==> s.revokedAt.Some?)
          && s.provider.value !in w.linked)
  }

  ghost predicate SessionsOk(w: World) {
    forall r | r in w.ledger.sessions :: SessionOk(w, w.ledger.sessions[r])
  }

  /** The logout-shape and time checks of the provider-session schema. */
  ghost predicate ProvidersOk(l: Ledger) {
    forall sid | sid in l.providers ::
      var p := l.providers[sid];
      && (p.active <==> p.loggedOutAt.None?)
      && (p.active <==> sid !in l.tombstones)
      && (p.loggedOutAt.Some? ==> p.loggedOutAt.value >= p.lastSeenAt)
      && p.createdAt <= p.lastSeenAt < p.accessExpiresAt
  }

  ghost predicate BindingsOk(l: Ledger) {
    && (forall subject | subject in l.bindings ::
          && l.bindings[subject].methodId in l.methods
          && l.methods[l.bindings[subject].methodId].principal == l.bindings[subject].principal)
    && (forall sid | sid in l.providers ::
          && l.providers[sid].subject in l.bindings
          && l.bindings[l.providers[sid].subject] == l.providers[sid].binding
          && (l.providers[sid].active ==> l.methods[l.providers[sid].binding.methodId].active))
  }

  ghost predicate RowsOk(l: Ledger) {
    ProvidersOk(l) && BindingsOk(l)
  }

  /** A consumed assertion still has its row, or a later exchange read the clock at or after
      its expiry and collected it, or its provider session was erased. */
  ghost predicate WasCollected(w: World, j: int)
    requires 0 <= j < |w.exchanged| == |w.exchangedAt|
  {
    exists m :: j < m < |w.exchangedAt| && w.exchangedAt[m] >= w.exchanged[j].expiresAt
  }

  /** A row belongs to its assertion's latest exchange, which nothing later has collected. */
  ghost predicate RowIsLatest(w: World, a: Assertion)
    requires |w.exchanged| == |w.exchangedAt|
  {
    exists j :: 0 <= j < |w.exchanged| && w.exchanged[j] == a && !WasCollected(w, j)
  }

  /** If an assertion was exchanged twice, it was collected in between, at a reading on or
      after its expiry, and exchanged again at one before it. */
  ghost predicate ReadingsRanBack(w: World, j: int, k: int)
    requires 0 <= j < k < |w.exchanged| == |w.exchangedAt|
  {
    exists m :: j < m < k && w.exchangedAt[m] >= w.exchanged[k].expiresAt > w.exchangedAt[k]
  }

  ghost predicate ExchangesOk(w: World) {
    && |w.exchanged| == |w.exchangedAt|
    && (forall m | 0 <= m < |w.exchangedAt| :: w.exchangedAt[m] <= w.clock)
    && (forall a | a in w.ledger.exchanges ::
          RowIsLatest(w, a) && w.ledger.exchanges[a].expiresAt == a.expiresAt && w.ledger.exchanges[a].sid == a.sid)
    && (forall j | 0 <= j < |w.exchanged| ::
          w.exchanged[j] in w.ledger.exchanges || WasCollected(w, j) || w.exchanged[j].sid in w.ledger.tombstones)
    && (forall j, k | 0 <= j < k < |w.exchanged| && w.exchanged[j] == w.exchanged[k] :: ReadingsRanBack(w, j, k))
  }

  ghost predicate OwnersOk(w: World) {
    && (forall sid | sid in w.ledger.providers ::
          sid in w.owner && w.owner[sid] == (w.ledger.providers[sid].subject, w.ledger.providers[sid].binding))
    && (forall sid | sid in w.owner :: sid in w.ledger.providers || sid in w.ledger.tombstones)
    && w.loggedOut <= w.ledger.tombstones.Keys && w.linked <= w.ledger.tombstones.Keys
  }

  ghost predicate Inv(w: World) {
    SessionsOk(w) && RowsOk(w.ledger) && ExchangesOk(w) && OwnersOk(w)
  }

  /** Rows may go only with a tombstone left behind, and tombstones stay. */
  lemma EvidenceKeepsExchanges(w: World, t: World)
    requires ExchangesOk(w) && w.clock <= t.clock
    requires t.exchanged == w.exchanged && t.exchangedAt == w.exchangedAt
    requires w.ledger.tombstones.Keys <= t.ledger.tombstones.Keys
    requires forall a | a in t.ledger.exchanges ::
               a in w.ledger.exchanges && t.ledger.exchanges[a] == w.ledger.exchanges[a]
    requires forall a | a in w.ledger.exchanges && a !in t.ledger.exchanges :: a.sid in t.ledger.tombstones
    ensures ExchangesOk(t)
  {
    forall j | 0 <= j < |w.exchanged|
      ensures WasCollected(t, j) == WasCollected(w, j)
    {
    }
    forall a | a in t.ledger.exchanges
      ensures RowIsLatest(t, a)
    {
      assert RowIsLatest(w, a);
      var j :| 0 <= j < |w.exchanged| && w.exchanged[j] == a && !WasCollected(w, j);
      assert t.exchanged[j] == a && !WasCollected(t, j);
    }
    forall j, k | 0 <= j < k < |t.exchanged| && t.exchanged[j] == t.exchanged[k]
      ensures ReadingsRanBack(t, j, k)
    {
      assert ReadingsRanBack(w, j, k);
    }
  }

  /* ------------------------------ local sessions ------------------------------ */

  ghost function WithSessions(w: World, sessions: map<SessionRef, LocalSession>): World {
    w.(ledger := w.ledger.(sessions := sessions))
  }

  lemma SessionsChangeKeeps(w: World, sessions: map<SessionRef, LocalSession>)
    requires Inv(w) && forall r | r in sessions :: SessionOk(w, sessions[r])
    ensures Inv(WithSessions(w, sessions))
  {
    var t := WithSessions(w, sessions);
    forall r | r in sessions
      ensures SessionOk(t, sessions[r])
    {
      assert SessionOk(w, sessions[r]);
    }
    EvidenceKeepsExchanges(w, t);
  }

  lemma RevokedOk(w: World, s: LocalSession, at: int)
    requires SessionOk(w, s)
    ensures SessionOk(w, Revoked(s, at))
  {
  }

  /** Revoking any sessions at all. */
  lemma RevokeKeeps(w: World, sessions: map<SessionRef, LocalSession>)
    requires Inv(w) && sessions.Keys == w.ledger.sessions.Keys
    requires forall r | r in sessions ::
               sessions[r] == w.ledger.sessions[r] || (exists at :: sessions[r] == Revoked(w.ledger.sessions[r], at))
    ensures Inv(WithSessions(w, sessions))
  {
    forall r | r in sessions
      ensures SessionOk(w, sessions[r])
    {
      assert SessionOk(w, w.ledger.sessions[r]);
      if at :| sessions[r] == Revoked(w.ledger.sessions[r], at) {
        RevokedOk(w, w.ledger.sessions[r], at);
      }
    }
    SessionsChangeKeeps(w, sessions);
  }

  /** Adding or replacing one session by one that fits. */
  lemma PutKeeps(w: World, ref: SessionRef, s: LocalSession)
    requires Inv(w) && SessionOk(w, s)
    ensures Inv(WithSessions(w, w.ledger.sessions[ref := s]))
  {
    SessionsChangeKeeps(w, w.ledger.sessions[ref := s]);
  }

  lemma TickKeeps(w: World, now: int)
    requires Inv(w) && w.clock <= now
    ensures Inv(w.(clock := now))
  {
    var t := w.(clock := now);
    forall r | r in t.ledger.sessions
      ensures SessionOk(t, t.ledger.sessions[r])
    {
      assert SessionOk(w, w.ledger.sessions[r]);
    }
    EvidenceKeepsExchanges(w, t);
  }

  /** An eligible session still fits when its idle window moves: nothing retired or ended
      stands behind it. */
  lemma IdleMovesOk(w: World, ref: SessionRef, idleExpiresAt: int, now: int)
    requires Inv(w) && Eligible(w.ledger, ref, now)
    ensures SessionOk(w, w.ledger.sessions[ref].(idleExpiresAt := idleExpiresAt))
  {
    assert SessionOk(w, w.ledger.sessions[ref]);
  }

  lemma UseKeeps(w: World, ref: SessionRef, policy: SessionPolicy, now: int)
    requires now <= w.clock
    requires Inv(w)
    ensures Inv(w.(ledger := Slide(w.ledger, ref, policy, now)))
  {
    if Eligible(w.ledger, ref, now) {
      var next := IdleExpiry(policy, now, w.ledger.sessions[ref].expiresAt);
      IdleMovesOk(w, ref, next, now);
      PutKeeps(w, ref, w.ledger.sessions[ref].(idleExpiresAt := next));
    }
  }

  lemma RotateKeeps(w: World, ref: SessionRef, successor: SessionRef, policy: SessionPolicy, now: int)
    requires now <= w.clock
    requires Inv(w) && Rotate(w.ledger, ref, successor, policy, now).Success?
    ensures Inv(w.(ledger := Rotate(w.ledger, ref, successor, policy, now).value))
  {
    var s := w.ledger.sessions[ref];
    var next := IdleExpiry(policy, now, s.expiresAt);
    IdleMovesOk(w, ref, next, now);
    assert SessionOk(w, s);
    RevokedOk(w, s, now);
    PutKeeps(w, ref, Revoked(s, now));
    var revoked := WithSessions(w, w.ledger.sessions[ref := Revoked(s, now)]);
    assert SessionOk(revoked, s.(idleExpiresAt := next));
    PutKeeps(revoked, successor, s.(idleExpiresAt := next));
  }

  lemma RetireKeyKeeps(w: World, key: KeyId, now: int)
    requires now <= w.clock
    requires Inv(w)
    ensures Inv(w.(ledger := RetireKey(w.ledger, key, now)))
  {
    var t := w.(ledger := RetireKey(w.ledger, key, now));
    forall r | r in t.ledger.sessions
      ensures SessionOk(t, t.ledger.sessions[r])
    {
      assert SessionOk(w, w.ledger.sessions[r]);
    }
    EvidenceKeepsExchanges(w, t);
  }

  /* ------------------------------- attach and claim --------------------------- */

  ghost function Attached(l: Ledger, subject: Subject, b: Binding): Ledger {
    l.(methods := l.methods[b.methodId := AuthMethod(b.principal, true)], bindings := l.bindings[subject := b])
  }

  lemma AttachKeepsRows(l: Ledger, subject: Subject, b: Binding)
    requires RowsOk(l)
    requires subject in l.bindings ==> l.bindings[subject] == b
    requires b.methodId in l.methods ==> subject in l.bindings && l.methods[b.methodId].principal == b.principal
    ensures RowsOk(Attached(l, subject, b))
  {
  }

  /** Entering a fresh method for a fresh subject, or reactivating a disabled one. */
  lemma AttachKeeps(w: World, subject: Subject, b: Binding)
    requires Inv(w)
    requires subject in w.ledger.bindings ==> w.ledger.bindings[subject] == b
    requires b.methodId in w.ledger.methods ==>
               subject in w.ledger.bindings && w.ledger.methods[b.methodId].principal == b.principal
    ensures Inv(w.(ledger := Attached(w.ledger, subject, b)))
  {
    var t := w.(ledger := Attached(w.ledger, subject, b));
    forall r | r in t.ledger.sessions
      ensures SessionOk(t, t.ledger.sessions[r])
    {
      assert SessionOk(w, w.ledger.sessions[r]);
    }
    AttachKeepsRows(w.ledger, subject, b);
    EvidenceKeepsExchanges(w, t);
  }

  ghost predicate Claims(l: Ledger, clock: int, a: Assertion, b: Binding, linking: Option<SessionRef>) {
    && a.subject in l.bindings && l.bindings[a.subject] == b
    && b.methodId in l.methods && l.methods[b.methodId] == AuthMethod(b.principal, true)
    && Claim(l, a, b, linking, clock).Success?
  }

  lemma ClaimKeepsRows(l: Ledger, clock: int, a: Assertion, b: Binding, linking: Option<SessionRef>)
    requires RowsOk(l) && Claims(l, clock, a, b, linking)
    ensures RowsOk(Claim(l, a, b, linking, clock).value)
  {
  }

  ghost function Claimed(w: World, a: Assertion, b: Binding, linking: Option<SessionRef>, now: int): World
    requires Claim(w.ledger, a, b, linking, now).Success?
  {
    w.(ledger := Claim(w.ledger, a, b, linking, now).value,
    exchanged := w.exchanged + [a], exchangedAt := w.exchangedAt + [now], owner := Owned(w, a, b))
  }

  /** Exactly when an assertion that is acceptable otherwise can be exchanged: when it was
      never exchanged, or after each exchange some later one read the clock at or after its
      expiry and collected its row. */
  lemma ExchangeableExactly(w: World, a: Assertion, b: Binding, linking: Option<SessionRef>, now: int)
    requires ExchangesOk(w)
    requires now < a.expiresAt && a.key !in w.ledger.retiredKeys
    requires TombstoneRejection(w.ledger, a).None? && MayClaim(w.ledger, a, b)
    ensures Claim(w.ledger, a, b, linking, now).Success?
            <==> forall j | 0 <= j < |w.exchanged| && w.exchanged[j] == a :: WasCollected(w, j)
  {
    if a in w.ledger.exchanges {
      assert RowIsLatest(w, a);
    }
  }

  /** At a reading no earlier than every exchange's, an assertion that can be claimed was
      never exchanged before: its row cannot have been collected while it is acceptable. */
  lemma ClaimIsFirst(w: World, a: Assertion, b: Binding, linking: Option<SessionRef>, now: int)
    requires ExchangesOk(w) && Claim(w.ledger, a, b, linking, now).Success?
    requires forall m | 0 <= m < |w.exchangedAt| :: w.exchangedAt[m] <= now
    ensures a !in w.exchanged
  {
    ExchangeableExactly(w, a, b, linking, now);
  }

  /** What another exchange changes about the earlier ones. */
  lemma CollectionGrows(w: World, t: World, now: int, j: int)
    requires |w.exchanged| == |w.exchangedAt| && 0 <= j < |w.exchanged|
    requires |t.exchanged| == |t.exchangedAt| == |w.exchanged| + 1
    requires t.exchanged[..|w.exchanged|] == w.exchanged && t.exchangedAt == w.exchangedAt + [now]
    ensures WasCollected(t, j) <==> WasCollected(w, j) || now >= w.exchanged[j].expiresAt
  {
    assert t.exchanged[j] == t.exchanged[..|w.exchanged|][j];
    if m :| j < m < |w.exchangedAt| && w.exchangedAt[m] >= w.exchanged[j].expiresAt {
      assert t.exchangedAt[m] == w.exchangedAt[m];
    }
    if now >= w.exchanged[j].expiresAt {
      assert t.exchangedAt[|w.exchangedAt|] == now;
    }
    if m :| j < m < |t.exchangedAt| && t.exchangedAt[m] >= t.exchanged[j].expiresAt {
      assert m < |w.exchangedAt| ==> t.exchangedAt[m] == w.exchangedAt[m];
    }
  }

  lemma ClaimKeepsRowsOfExchanges(w: World, a: Assertion, b: Binding, linking: Option<SessionRef>, now: int,
                                  x: Assertion)
    requires ExchangesOk(w) && Claim(w.ledger, a, b, linking, now).Success?
    requires x in Claimed(w, a, b, linking, now).ledger.exchanges
    ensures RowIsLatest(Claimed(w, a, b, linking, now), x)
  {
    var t := Claimed(w, a, b, linking, now);
    if x == a {
      assert t.exchanged[|w.exchanged|] == a && !WasCollected(t, |w.exchanged|);
    } else {
      assert RowIsLatest(w, x) && w.ledger.exchanges[x].expiresAt > now;
      var j :| 0 <= j < |w.exchanged| && w.exchanged[j] == x && !WasCollected(w, j);
      CollectionGrows(w, t, now, j);
      assert t.exchanged[j] == x;
    }
  }

  lemma ClaimKeepsCollected(w: World, a: Assertion, b: Binding, linking: Option<SessionRef>, now: int, j: int)
    requires ExchangesOk(w) && Claim(w.ledger, a, b, linking, now).Success?
    requires 0 <= j < |w.exchanged| + 1
    ensures
      var t := Claimed(w, a, b, linking, now);
      t.exchanged[j] in t.ledger.exchanges || WasCollected(t, j) || t.exchanged[j].sid in t.ledger.tombstones
  {
    var t := Claimed(w, a, b, linking, now);
    if j < |w.exchanged| {
      CollectionGrows(w, t, now, j);
      assert t.exchanged[j] == w.exchanged[j];
    }
  }

  lemma ClaimKeepsReadings(w: World, a: Assertion, b: Binding, linking: Option<SessionRef>, now: int, j: int, k: int)
    requires ExchangesOk(w) && Claim(w.ledger, a, b, linking, now).Success?
    requires 0 <= j < k < |w.exchanged| + 1
    requires var t := Claimed(w, a, b, linking, now); t.exchanged[j] == t.exchanged[k]
    ensures ReadingsRanBack(Claimed(w, a, b, linking, now), j, k)
  {
    var t := Claimed(w, a, b, linking, now);
    if k < |w.exchanged| {
      assert ReadingsRanBack(w, j, k);
      var m :| j < m < k && w.exchangedAt[m] >= w.exchanged[k].expiresAt > w.exchangedAt[k];
      assert t.exchangedAt[m] == w.exchangedAt[m] && t.exchangedAt[k] == w.exchangedAt[k];
    } else {
      assert w.exchanged[j] == a;
      ExchangeableExactly(w, a, b, linking, now);
      assert WasCollected(w, j);
      var m :| j < m < |w.exchangedAt| && w.exchangedAt[m] >= w.exchanged[j].expiresAt;
      assert t.exchangedAt[m] == w.exchangedAt[m] && t.exchangedAt[k] == now;
    }
  }

  lemma ClaimKeepsExchanges(w: World, a: Assertion, b: Binding, linking: Option<SessionRef>, now: int)
    requires now <= w.clock
    requires ExchangesOk(w) && Claim(w.ledger, a, b, linking, now).Success?
    ensures ExchangesOk(Claimed(w, a, b, linking, now))
  {
    var t := Claimed(w, a, b, linking, now);
    forall x | x in t.ledger.exchanges
      ensures RowIsLatest(t, x)
    {
      ClaimKeepsRowsOfExchanges(w, a, b, linking, now, x);
    }
    forall j | 0 <= j < |t.exchanged|
      ensures t.exchanged[j] in t.ledger.exchanges || WasCollected(t, j) || t.exchanged[j].sid in t.ledger.tombstones
    {
      ClaimKeepsCollected(w, a, b, linking, now, j);
    }
    forall j, k | 0 <= j < k < |t.exchanged| && t.exchanged[j] == t.exchanged[k]
      ensures ReadingsRanBack(t, j, k)
    {
      ClaimKeepsReadings(w, a, b, linking, now, j, k);
    }
  }

  lemma ClaimKeepsSessions(w: World, a: Assertion, b: Binding, linking: Option<SessionRef>, now: int)
    requires SessionsOk(w) && Claim(w.ledger, a, b, linking, now).Success?
    ensures SessionsOk(Claimed(w, a, b, linking, now))
  {
    var t := Claimed(w, a, b, linking, now);
    forall r | r in t.ledger.sessions
      ensures SessionOk(t, t.ledger.sessions[r])
    {
      assert SessionOk(w, w.ledger.sessions[r]);
    }
  }

  lemma ClaimKeepsOwners(w: World, a: Assertion, b: Binding, linking: Option<SessionRef>, now: int)
    requires OwnersOk(w) && Claim(w.ledger, a, b, linking, now).Success?
    ensures OwnersOk(Claimed(w, a, b, linking, now))
  {
  }

  lemma ClaimKeeps(w: World, a: Assertion, b: Binding, linking: Option<SessionRef>, now: int)
    requires now <= w.clock
    requires Inv(w) && Claims(w.ledger, now, a, b, linking)
    ensures Inv(Claimed(w, a, b, linking, now))
  {
    ClaimKeepsRows(w.ledger, now, a, b, linking);
    ClaimKeepsSessions(w, a, b, linking, now);
    ClaimKeepsExchanges(w, a, b, linking, now);
    ClaimKeepsOwners(w, a, b, linking, now);
  }

  /* --------------------------- ending provider sessions ----------------------- */

  ghost function Ended(w: World, sid: Sid, b: Binding, reason: Reason, loggedOut: set<Sid>, linked: set<Sid>,
                       now: int): World
    requires End(w.ledger, sid, b, now, reason).Success?
  {
    w.(ledger := End(w.ledger, sid, b, now, reason).value,
    loggedOut := w.loggedOut + loggedOut, linked := w.linked + linked)
  }

  lemma EndKeepsRows(l: Ledger, sid: Sid, b: Binding, reason: Reason, now: int)
    requires RowsOk(l) && End(l, sid, b, now, reason).Success?
    ensures RowsOk(End(l, sid, b, now, reason).value)
  {
  }

  /** Ending an active provider session whose local sessions are already spent. */
  lemma EndKeeps(w: World, sid: Sid, b: Binding, reason: Reason, loggedOut: set<Sid>, linked: set<Sid>, now: int)
    requires now <= w.clock
    requires Inv(w) && End(w.ledger, sid, b, now, reason).Success?
    requires loggedOut <= {sid} && linked <= {sid}
    requires forall r | r in w.ledger.sessions && w.ledger.sessions[r].provider == Some(sid) ::
               && Spent(w.ledger.sessions[r], w.clock)
               && (loggedOut != {} ==> w.ledger.sessions[r].revokedAt.Some?)
               && linked == {}
    ensures Inv(Ended(w, sid, b, reason, loggedOut, linked, now))
  {
    var t := Ended(w, sid, b, reason, loggedOut, linked, now);
    forall r | r in t.ledger.sessions
      ensures SessionOk(t, t.ledger.sessions[r])
    {
      assert SessionOk(w, w.ledger.sessions[r]);
    }
    EndKeepsRows(w.ledger, sid, b, reason, now);
    EvidenceKeepsExchanges(w, t);
    assert OwnersOk(t);
  }

  /* ---------------------------------- sign-in --------------------------------- */

  /** A committed sign-in, stage by stage. */
  ghost predicate SignsInThrough(l: Ledger, a: Assertion, admission: Option<Binding>, ref: SessionRef,
                                 policy: SessionPolicy, now: int, b: Binding)
  {
    && Resolve(l, a, admission) == Success(Attached(l, a.subject, b))
    && (a.subject in l.bindings ==> l.bindings[a.subject] == b)
    && (b.methodId in l.methods ==> a.subject in l.bindings && l.methods[b.methodId].principal == b.principal)
    && Claims(Attached(l, a.subject, b), now, a, b, None)
    && var claimed := Claim(Attached(l, a.subject, b), a, b, None, now).value;
       && a.key !in claimed.retiredKeys && a.sid !in claimed.tombstones
       && a.sid in claimed.providers && claimed.providers[a.sid].binding == b
       && ref !in claimed.sessions && claimed.bindings[a.subject] == b
       && SignIn(l, a, admission, ref, policy, now)
          == Success(claimed.(sessions := claimed.sessions[ref := MintedSession(a, b, policy, now)]))
  }

  lemma ResolvesThrough(l: Ledger, a: Assertion, admission: Option<Binding>) returns (b: Binding)
    requires Resolve(l, a, admission).Success?
    ensures Resolve(l, a, admission) == Success(Attached(l, a.subject, b))
    ensures a.subject in l.bindings ==> l.bindings[a.subject] == b
    ensures b.methodId in l.methods ==> a.subject in l.bindings && l.methods[b.methodId].principal == b.principal
  {
    var resolved := Resolve(l, a, admission).value;
    b := resolved.bindings[a.subject];
    if a.subject in l.bindings {
      assert Attached(l, a.subject, b).methods == l.methods && Attached(l, a.subject, b).bindings == l.bindings;
    }
  }

  lemma SignInInStages(l: Ledger, a: Assertion, admission: Option<Binding>, ref: SessionRef, policy: SessionPolicy,
                       now: int)
    returns (b: Binding)
    requires SignIn(l, a, admission, ref, policy, now).Success?
    ensures SignsInThrough(l, a, admission, ref, policy, now, b)
  {
    b := ResolvesThrough(l, a, admission);
  }

  lemma MintFits(w: World, a: Assertion, b: Binding, policy: SessionPolicy, now: int)
    requires OwnersOk(w) && b.methodId in w.ledger.methods
             && w.ledger.methods[b.methodId] == AuthMethod(b.principal, true)
    requires a.sid in w.ledger.providers && w.ledger.providers[a.sid].binding == b
    requires a.sid !in w.ledger.tombstones && a.key !in w.ledger.retiredKeys
    ensures SessionOk(w, MintedSession(a, b, policy, now))
  {
  }

  lemma SignInKeeps(w: World, a: Assertion, admission: Option<Binding>, ref: SessionRef, policy: SessionPolicy,
                    now: int)
    requires now <= w.clock
    requires Inv(w) && SignIn(w.ledger, a, admission, ref, policy, now).Success?
    ensures Inv(ApplySignIn(w, a, admission, ref, policy, now))
  {
    var b := SignInInStages(w.ledger, a, admission, ref, policy, now);
    AttachKeeps(w, a.subject, b);
    var attached := w.(ledger := Attached(w.ledger, a.subject, b));
    ClaimKeeps(attached, a, b, None, now);
    var claimed := Claimed(attached, a, b, None, now);
    MintFits(claimed, a, b, policy, now);
    PutKeeps(claimed, ref, MintedSession(a, b, policy, now));
  }

  /* ---------------------------------- logout ---------------------------------- */

  /** A logout that writes revokes the local scope and then ends the provider session. */
  lemma LogoutInStages(w: World, ref: SessionRef, sessions: map<SessionRef, LocalSession>, now: int)
    requires Logout(w.ledger, ref, now).Success? && Logout(w.ledger, ref, now).value != w.ledger
    requires sessions == Logout(w.ledger, ref, now).value.sessions
    ensures sessions.Keys == w.ledger.sessions.Keys && ref in sessions
    ensures forall r | r in sessions :: sessions[r] in {w.ledger.sessions[r], Revoked(w.ledger.sessions[r], now)}
    ensures
      var s := w.ledger.sessions[ref];
      var revoked := WithSessions(w, sessions);
      if s.provider.None? then ApplyLogout(w, ref, now) == revoked
      else
        && s.methodId.Some?
        && (forall r | r in sessions && InProviderScope(w.ledger.sessions[r], s.principal, s.provider.value) ::
              sessions[r].revokedAt.Some?)
        && var b := Binding(s.principal, s.methodId.value);
           && End(revoked.ledger, s.provider.value, b, now, LoggedOut).Success?
           && ApplyLogout(w, ref, now) == Ended(revoked, s.provider.value, b, LoggedOut, {s.provider.value}, {}, now)
  {
  }

  lemma LogoutKeeps(w: World, ref: SessionRef, now: int)
    requires now <= w.clock
    requires Inv(w)
    ensures Inv(ApplyLogout(w, ref, now))
  {
    var result := Logout(w.ledger, ref, now);
    if result.Success? && result.value != w.ledger {
      var s := w.ledger.sessions[ref];
      LogoutInStages(w, ref, result.value.sessions, now);
      RevokeKeeps(w, result.value.sessions);
      if s.provider.Some? {
        var revoked := WithSessions(w, result.value.sessions);
        forall r | r in revoked.ledger.sessions && revoked.ledger.sessions[r].provider == s.provider
          ensures revoked.ledger.sessions[r].revokedAt.Some?
        {
          assert SessionOk(w, w.ledger.sessions[r]) && SessionOk(w, s);
        }
        EndKeeps(revoked, s.provider.value, Binding(s.principal, s.methodId.value), LoggedOut,
                 {s.provider.value}, {}, now);
      }
    }
  }

  /* ----------------------------------- link ----------------------------------- */

  /** A committed link, stage by stage. */
  ghost predicate LinksThrough(l: Ledger, a: Assertion, ref: SessionRef, newMethod: Id, policy: SessionPolicy,
                               now: int, b: Binding)
  {
    && ref in l.sessions && b.principal == l.sessions[ref].principal
    && TombstoneRejection(l, a).None?
    && Attach(l, a, b.principal, newMethod) == Success(Attached(l, a.subject, b))
    && (a.subject in l.bindings ==> l.bindings[a.subject] == b)
    && (b.methodId in l.methods ==> a.subject in l.bindings && l.methods[b.methodId] == AuthMethod(b.principal, false))
    && Claims(Attached(l, a.subject, b), now, a, b, Some(ref))
    && var claimed := Claim(Attached(l, a.subject, b), a, b, Some(ref), now).value;
       && End(claimed, a.sid, b, now, LinkCompleted).Success?
       && Link(l, a, ref, newMethod, policy, now)
         == Success((End(claimed, a.sid, b, now, LinkCompleted).value, b.methodId))
  }

  lemma LinkInStages(l: Ledger, a: Assertion, ref: SessionRef, newMethod: Id, policy: SessionPolicy, now: int)
    returns (b: Binding)
    requires Link(l, a, ref, newMethod, policy, now).Success?
    requires Link(l, a, ref, newMethod, policy, now).value.0 != l
    ensures LinksThrough(l, a, ref, newMethod, policy, now, b)
  {
    var attached := Attach(l, a, l.sessions[ref].principal, newMethod).value;
    b := attached.bindings[a.subject];
    assert attached == Attached(l, a.subject, b) by {
      assert attached.bindings == Attached(l, a.subject, b).bindings;
    }
  }

  /** The provider session to be linked is one that no sign-in has claimed. */
  lemma LinkIsFresh(l: Ledger, a: Assertion, ref: SessionRef, newMethod: Id, policy: SessionPolicy, now: int,
                    b: Binding)
    requires RowsOk(l) && LinksThrough(l, a, ref, newMethod, policy, now, b)
    ensures a.sid !in l.providers
  {
  }

  lemma LinkApplies(w: World, a: Assertion, ref: SessionRef, newMethod: Id, policy: SessionPolicy, b: Binding, now: int)
    requires LinksThrough(w.ledger, a, ref, newMethod, policy, now, b)
    requires Link(w.ledger, a, ref, newMethod, policy, now).value.0 != w.ledger
    ensures
      ApplyLink(w, a, ref, newMethod, policy, now)
      == Ended(Claimed(w.(ledger := Attached(w.ledger, a.subject, b)), a, b, Some(ref), now),
               a.sid, b, LinkCompleted, {}, {a.sid}, now)
  {
    var claimed := Claimed(w.(ledger := Attached(w.ledger, a.subject, b)), a, b, Some(ref), now);
    assert claimed.loggedOut + {} == w.loggedOut;
  }

  /** A link ends a provider session that no local session was ever minted from. */
  lemma LinkKeeps(w: World, a: Assertion, ref: SessionRef, newMethod: Id, policy: SessionPolicy, now: int)
    requires now <= w.clock
    requires Inv(w)
    ensures Inv(ApplyLink(w, a, ref, newMethod, policy, now))
  {
    var result := Link(w.ledger, a, ref, newMethod, policy, now);
    if result.Success? && result.value.0 != w.ledger {
      var b := LinkInStages(w.ledger, a, ref, newMethod, policy, now);
      LinkIsFresh(w.ledger, a, ref, newMethod, policy, now, b);
      AttachKeeps(w, a.subject, b);
      LinkApplies(w, a, ref, newMethod, policy, b, now);
      ClaimThenEndKeeps(w.(ledger := Attached(w.ledger, a.subject, b)), a, b, Some(ref), now);
    }
  }

  lemma ClaimThenEndKeeps(w: World, a: Assertion, b: Binding, linking: Option<SessionRef>, now: int)
    requires now <= w.clock
    requires Inv(w) && a.sid !in w.ledger.providers && Claims(w.ledger, now, a, b, linking)
    requires End(Claim(w.ledger, a, b, linking, now).value, a.sid, b, now, LinkCompleted).Success?
    ensures Inv(Ended(Claimed(w, a, b, linking, now), a.sid, b, LinkCompleted, {}, {a.sid}, now))
  {
    ClaimKeeps(w, a, b, linking, now);
    forall r | r in w.ledger.sessions
      ensures w.ledger.sessions[r].provider != Some(a.sid)
    {
      assert SessionOk(w, w.ledger.sessions[r]);
    }
    EndKeeps(Claimed(w, a, b, linking, now), a.sid, b, LinkCompleted, {}, {a.sid}, now);
  }

  /* ---------------------------- disabling and erasure ------------------------- */

  lemma DisableKeepsRows(l: Ledger, methodId: Id, now: int)
    requires RowsOk(l)
    ensures RowsOk(Disable(l, methodId, now))
  {
  }

  /** A sealed provider session's local sessions came in through the disabled method. */
  lemma DisableKeepsSessions(w: World, methodId: Id, now: int)
    requires now <= w.clock
    requires SessionsOk(w) && RowsOk(w.ledger)
    ensures SessionsOk(w.(ledger := Disable(w.ledger, methodId, now)))
  {
    var t := w.(ledger := Disable(w.ledger, methodId, now));
    forall r | r in t.ledger.sessions
      ensures SessionOk(t, t.ledger.sessions[r])
    {
      assert SessionOk(w, w.ledger.sessions[r]);
    }
  }

  lemma DisableKeeps(w: World, methodId: Id, now: int)
    requires now <= w.clock
    requires Inv(w)
    ensures Inv(w.(ledger := Disable(w.ledger, methodId, now)))
  {
    DisableKeepsRows(w.ledger, methodId, now);
    DisableKeepsSessions(w, methodId, now);
    var t := w.(ledger := Disable(w.ledger, methodId, now));
    EvidenceKeepsExchanges(w, t);
    assert OwnersOk(t);
  }

  lemma EraseKeepsRows(l: Ledger, principal: Id, now: int)
    requires RowsOk(l)
    ensures RowsOk(ErasePrincipal(l, principal, now))
  {
  }

  lemma EraseKeepsSessions(w: World, principal: Id, now: int)
    requires now <= w.clock
    requires SessionsOk(w)
    ensures SessionsOk(w.(ledger := ErasePrincipal(w.ledger, principal, now)))
  {
    var t := w.(ledger := ErasePrincipal(w.ledger, principal, now));
    forall r | r in t.ledger.sessions
      ensures SessionOk(t, t.ledger.sessions[r])
    {
      assert SessionOk(w, w.ledger.sessions[r]);
    }
  }

  lemma EraseKeepsHistory(w: World, principal: Id, now: int)
    requires ExchangesOk(w) && OwnersOk(w)
    ensures
      var t := w.(ledger := ErasePrincipal(w.ledger, principal, now));
      ExchangesOk(t) && OwnersOk(t)
  {
    EvidenceKeepsExchanges(w, w.(ledger := ErasePrincipal(w.ledger, principal, now)));
  }

  lemma EraseKeeps(w: World, principal: Id, now: int)
    requires now <= w.clock
    requires Inv(w)
    ensures Inv(w.(ledger := ErasePrincipal(w.ledger, principal, now)))
  {
    EraseKeepsRows(w.ledger, principal, now);
    EraseKeepsSessions(w, principal, now);
    EraseKeepsHistory(w, principal, now);
  }

  /* ------------------------------------ runs ---------------------------------- */

  lemma DisablePrincipalKeeps(w: World, principal: Id)
    requires Inv(w)
    ensures Inv(w.(ledger := w.ledger.(disabledPrincipals := w.ledger.disabledPrincipals + {principal})))
  {
    var t := w.(ledger := w.ledger.(disabledPrincipals := w.ledger.disabledPrincipals + {principal}));
    forall r | r in t.ledger.sessions
      ensures SessionOk(t, t.ledger.sessions[r])
    {
      assert SessionOk(w, w.ledger.sessions[r]);
    }
    EvidenceKeepsExchanges(w, t);
  }

  /** A new method, or one that becomes active, stands in nobody's way. */
  lemma MethodKeeps(w: World, methodId: Id, m: AuthMethod)
    requires Inv(w) && m.active
    requires methodId in w.ledger.methods ==> w.ledger.methods[methodId].principal == m.principal
    ensures Inv(w.(ledger := w.ledger.(methods := w.ledger.methods[methodId := m])))
  {
    var t := w.(ledger := w.ledger.(methods := w.ledger.methods[methodId := m]));
    forall r | r in t.ledger.sessions
      ensures SessionOk(t, t.ledger.sessions[r])
    {
      assert SessionOk(w, w.ledger.sessions[r]);
    }
    EvidenceKeepsExchanges(w, t);
  }

  lemma TransactKeeps(w: World, step: Step)
    requires Inv(w) && step.now <= w.clock
    ensures Inv(Transact(w, step))
  {
    match step
    case DoSignIn(a, admission, ref, policy, now) =>
      if SignIn(w.ledger, a, admission, ref, policy, now).Success? {
        SignInKeeps(w, a, admission, ref, policy, now);
      }
    case DoUse(ref, policy, now) => UseKeeps(w, ref, policy, now);
    case DoLogout(ref, now) => LogoutKeeps(w, ref, now);
    case DoRotate(ref, successor, policy, now) =>
      if Rotate(w.ledger, ref, successor, policy, now).Success? {
        RotateKeeps(w, ref, successor, policy, now);
      }
    case DoLink(a, ref, newMethod, policy, now) => LinkKeeps(w, a, ref, newMethod, policy, now);
    case OpenLocalSession(ref, session, _) =>
      if OpensLocally(w.ledger, ref, session) {
        PutKeeps(w, ref, session);
      }
    case DoRegister(methodId, principal, _) =>
      if methodId !in w.ledger.methods {
        MethodKeeps(w, methodId, AuthMethod(principal, true));
      }
    case DoEnable(methodId, _) =>
      if methodId in w.ledger.methods {
        MethodKeeps(w, methodId, w.ledger.methods[methodId].(active := true));
      }
    case DoDisable(methodId, now) => DisableKeeps(w, methodId, now);
    case DoDisablePrincipal(principal, _) => DisablePrincipalKeeps(w, principal);
    case DoRevoke(refs, now) => RevokeKeeps(w, RevokeSome(w.ledger, refs, now).sessions);
    case DoRetireKey(key, now) => RetireKeyKeeps(w, key, now);
    case DoErase(principal, now) => EraseKeeps(w, principal, now);
  }

  /** Whatever the step reads from the clock, however far behind earlier readings. */
  lemma StepKeeps(w: World, step: Step)
    requires Inv(w)
    ensures Inv(Apply(w, step))
  {
    TickKeeps(w, Max(w.clock, step.now));
    TransactKeeps(w.(clock := Max(w.clock, step.now)), step);
  }

  lemma {:induction false} Reachable(clock: int, steps: seq<Step>)
    ensures Inv(Run(Init(clock), steps))
    decreases |steps|
  {
    if steps != [] {
      var before := Run(Init(clock), steps[..|steps| - 1]);
      Reachable(clock, steps[..|steps| - 1]);
      StepKeeps(before, steps[|steps| - 1]);
    }
  }

  lemma {:induction false} RunAppend(w: World, a: seq<Step>, b: seq<Step>)
    ensures Run(w, a + b) == Run(Run(w, a), b)
    decreases |b|
  {
    if b == [] {
      assert a + b == a;
    } else {
      RunAppend(w, a, b[..|b| - 1]);
      assert (a + b)[..|a + b| - 1] == a + b[..|b| - 1];
    }
  }

  /* ---------------------------------- theorems -------------------------------- */

  /** What a step never takes back: evidence, endings, consumed assertions and owners. */
  ghost predicate Remembers(w: World, t: World) {
    && KeepsEvidence(w.ledger, t.ledger)
    && w.loggedOut <= t.loggedOut && w.linked <= t.linked
    && w.exchanged <= t.exchanged
    && (forall sid | sid in w.owner :: sid in t.owner && t.owner[sid] == w.owner[sid])
  }

  ghost predicate KeepsEvidence(l: Ledger, after: Ledger) {
    && l.tombstones.Keys <= after.tombstones.Keys && l.erasedSubjects <= after.erasedSubjects
    && l.retiredKeys <= after.retiredKeys && l.disabledPrincipals <= after.disabledPrincipals
  }

  lemma SignInKeepsEvidence(l: Ledger, a: Assertion, admission: Option<Binding>, ref: SessionRef,
                            policy: SessionPolicy, now: int)
    requires SignIn(l, a, admission, ref, policy, now).Success?
    ensures KeepsEvidence(l, SignIn(l, a, admission, ref, policy, now).value)
  {
  }

  lemma LogoutKeepsEvidence(l: Ledger, ref: SessionRef, now: int)
    requires Logout(l, ref, now).Success?
    ensures KeepsEvidence(l, Logout(l, ref, now).value)
  {
  }

  lemma LinkKeepsEvidence(l: Ledger, a: Assertion, ref: SessionRef, newMethod: Id, policy: SessionPolicy, now: int)
    requires Link(l, a, ref, newMethod, policy, now).Success?
    ensures KeepsEvidence(l, Link(l, a, ref, newMethod, policy, now).value.0)
  {
    if Link(l, a, ref, newMethod, policy, now).value.0 != l {
      var b := LinkInStages(l, a, ref, newMethod, policy, now);
    }
  }

  lemma SweepKeepsEvidence(l: Ledger, id: Id, now: int)
    ensures KeepsEvidence(l, Disable(l, id, now)) && KeepsEvidence(l, ErasePrincipal(l, id, now))
  {
  }

  lemma ExchangeRemembers(w: World, a: Assertion, after: Ledger, now: int)
    requires KeepsEvidence(w.ledger, after)
    ensures Remembers(w, Exchanged(w, a, after, now))
  {
  }

  lemma LogoutRemembers(w: World, ref: SessionRef, now: int)
    ensures Remembers(w, ApplyLogout(w, ref, now))
  {
    if Logout(w.ledger, ref, now).Success? {
      LogoutKeepsEvidence(w.ledger, ref, now);
    }
  }

  lemma LinkRemembers(w: World, a: Assertion, ref: SessionRef, newMethod: Id, policy: SessionPolicy, now: int)
    ensures Remembers(w, ApplyLink(w, a, ref, newMethod, policy, now))
  {
    var result := Link(w.ledger, a, ref, newMethod, policy, now);
    if result.Success? && result.value.0 != w.ledger {
      LinkKeepsEvidence(w.ledger, a, ref, newMethod, policy, now);
      ExchangeRemembers(w, a, result.value.0, now);
    }
  }

  lemma SignInRemembers(w: World, a: Assertion, admission: Option<Binding>, ref: SessionRef,
                        policy: SessionPolicy, now: int)
    ensures Remembers(w, ApplySignIn(w, a, admission, ref, policy, now))
  {
    if SignIn(w.ledger, a, admission, ref, policy, now).Success? {
      SignInKeepsEvidence(w.ledger, a, admission, ref, policy, now);
      ExchangeRemembers(w, a, SignIn(w.ledger, a, admission, ref, policy, now).value, now);
    }
  }

  lemma StepRemembers(w: World, step: Step)
    ensures Remembers(w, Apply(w, step)) && Apply(w, step).clock == Max(w.clock, step.now)
  {
    var ticked := w.(clock := Max(w.clock, step.now));
    match step
    case DoSignIn(a, admission, ref, policy, now) => SignInRemembers(ticked, a, admission, ref, policy, now);
    case DoLogout(ref, now) => LogoutRemembers(ticked, ref, now);
    case DoLink(a, ref, newMethod, policy, now) => LinkRemembers(ticked, a, ref, newMethod, policy, now);
    case DoDisable(methodId, now) => SweepKeepsEvidence(w.ledger, methodId, now);
    case DoErase(principal, now) => SweepKeepsEvidence(w.ledger, principal, now);
    case _ =>
  }

  lemma {:induction false} RunRemembers(w: World, later: seq<Step>)
    ensures Remembers(w, Run(w, later))
    decreases |later|
  {
    if later != [] {
      RunRemembers(w, later[..|later| - 1]);
      StepRemembers(Run(w, later[..|later| - 1]), later[|later| - 1]);
    }
  }

  /** What holds of any continuation of a run. */
  lemma Continues(clock: int, steps: seq<Step>, later: seq<Step>) returns (s: World, t: World)
    ensures s == Run(Init(clock), steps) && t == Run(Init(clock), steps + later)
    ensures Inv(s) && Inv(t) && Remembers(s, t)
  {
    s, t := Run(Init(clock), steps), Run(Init(clock), steps + later);
    Reachable(clock, steps);
    Reachable(clock, steps + later);
    RunAppend(Init(clock), steps, later);
    RunRemembers(s, later);
  }

  /** After a committed logout, no continuation leaves or ever creates an unrevoked local
      session for that provider session; its tombstone stays, and its row, until erased,
      stays logged out at a time no earlier than it was last seen. */
  lemma LogoutIsFinal(clock: int, steps: seq<Step>, later: seq<Step>, sid: Sid)
    requires sid in Run(Init(clock), steps).loggedOut
    ensures
      var t := Run(Init(clock), steps + later);
      && sid in t.ledger.tombstones
      && (forall r | r in t.ledger.sessions && t.ledger.sessions[r].provider == Some(sid) ::
            t.ledger.sessions[r].revokedAt.Some?)
      && (sid in t.ledger.providers ==>
            && !t.ledger.providers[sid].active && t.ledger.providers[sid].loggedOutAt.Some?
            && t.ledger.providers[sid].loggedOutAt.value >= t.ledger.providers[sid].lastSeenAt)
  {
    var s, t := Continues(clock, steps, later);
    assert forall r | r in t.ledger.sessions :: SessionOk(t, t.ledger.sessions[r]);
  }

  /** Whatever ended a provider session, its local sessions are revoked or expired for
      good, and one ended by a link never has any. */
  lemma TombstonesAreFinal(clock: int, steps: seq<Step>, later: seq<Step>, sid: Sid)
    requires sid in Run(Init(clock), steps).ledger.tombstones
    ensures
      var t := Run(Init(clock), steps + later);
      && (forall r | r in t.ledger.sessions && t.ledger.sessions[r].provider == Some(sid) ::
            Spent(t.ledger.sessions[r], t.clock))
      && (sid in Run(Init(clock), steps).linked ==>
            forall r | r in t.ledger.sessions :: t.ledger.sessions[r].provider != Some(sid))
  {
    var s, t := Continues(clock, steps, later);
    assert forall r | r in t.ledger.sessions :: SessionOk(t, t.ledger.sessions[r]);
  }

  /** Once a signing key is retired, no continuation has a session it vouched for that is
      neither revoked nor expired by the latest reading, or eligible at any reading at all. */
  lemma RetiredKeysVouchForNothing(clock: int, steps: seq<Step>, later: seq<Step>, key: KeyId)
    requires key in Run(Init(clock), steps).ledger.retiredKeys
    ensures
      var t := Run(Init(clock), steps + later);
      forall r, now | r in t.ledger.sessions && t.ledger.sessions[r].key == Some(key) ::
        !Live(t.ledger.sessions[r], t.clock) && !Eligible(t.ledger, r, now)
  {
    var s, t := Continues(clock, steps, later);
    assert forall r | r in t.ledger.sessions :: SessionOk(t, t.ledger.sessions[r]);
  }

  /** A provider session belongs to one subject, principal and method for ever, and so do
      the local sessions minted from it. */
  lemma OneOwnerForEver(clock: int, steps: seq<Step>, later: seq<Step>, sid: Sid)
    requires sid in Run(Init(clock), steps).ledger.providers
    ensures
      var p := Run(Init(clock), steps).ledger.providers[sid];
      var t := Run(Init(clock), steps + later).ledger;
      && (sid in t.providers ==> t.providers[sid].subject == p.subject && t.providers[sid].binding == p.binding)
      && (forall r | r in t.sessions && t.sessions[r].provider == Some(sid) ::
            t.sessions[r].principal == p.binding.principal && t.sessions[r].methodId == Some(p.binding.methodId))
  {
    var s, t := Continues(clock, steps, later);
    var p := s.ledger.providers[sid];
    assert t.owner[sid] == s.owner[sid] == (p.subject, p.binding);
    forall r | r in t.ledger.sessions && t.ledger.sessions[r].provider == Some(sid)
      ensures t.ledger.sessions[r].principal == p.binding.principal
      ensures t.ledger.sessions[r].methodId == Some(p.binding.methodId)
    {
      assert SessionOk(t, t.ledger.sessions[r]);
      assert t.owner[sid] == (t.ledger.providers[sid].subject, t.ledger.providers[sid].binding);
    }
  }

  /* ----------------------------- retries are reads ---------------------------- */

  /** Retrying a link that has committed, while the assertion and the session hold, is a
      read that reports the same method. */
  lemma LinkIsIdempotent(w: World, a: Assertion, ref: SessionRef, newMethod: Id, policy: SessionPolicy, at: int,
                         now: int, other: Id)
    requires Inv(w) && now < a.expiresAt
    requires Link(w.ledger, a, ref, newMethod, policy, at).Success?
    requires
      var (l, m) := Link(w.ledger, a, ref, newMethod, policy, at).value;
      l != w.ledger && Eligible(l, ref, now) && now - l.sessions[ref].authenticatedAt <= policy.recentSeconds
    ensures
      var (l, m) := Link(w.ledger, a, ref, newMethod, policy, at).value;
      Link(l, a, ref, other, policy, now) == Success((l, m))
  {
    var b := LinkInStages(w.ledger, a, ref, newMethod, policy, at);
    LinkIsFresh(w.ledger, a, ref, newMethod, policy, at, b);
  }

  /** Retrying a logout of a provider session that has committed is a read, for as long as
      the session would have lived; afterwards, and for a session without a provider
      session, it is refused. */
  lemma LogoutIsIdempotent(w: World, ref: SessionRef, at: int, now: int)
    requires Inv(w)
    requires Eligible(w.ledger, ref, at) && Logout(w.ledger, ref, at).Success?
    ensures
      var l := Logout(w.ledger, ref, at).value;
      var s := w.ledger.sessions[ref];
      Logout(l, ref, now)
      == if s.provider.Some? && now < s.expiresAt && now < s.idleExpiresAt then Success(l) else Failure(Unauthorized)
  {
    assert SessionOk(w, w.ledger.sessions[ref]);
  }

  /** The ledgers that runs lead to. */
  ghost predicate Consistent(l: Ledger) {
    exists w :: Inv(w) && w.ledger == l
  }

  /** A logout is complete exactly for a revoked session in its lifetime whose provider
      session has left a tombstone; the rest of what is asked follows. */
  lemma CompletedLogoutExactly(l: Ledger, ref: SessionRef, now: int)
    requires Consistent(l) && ref in l.sessions
    ensures
      var s := l.sessions[ref];
      CompletedLogout(l, ref, now) <==>
        && s.revokedAt.Some? && now < s.expiresAt && now < s.idleExpiresAt
        && s.provider.Some? && s.provider.value in l.tombstones
  {
    var w :| Inv(w) && w.ledger == l;
    assert SessionOk(w, l.sessions[ref]);
  }
}
