/** What becomes of an account's methods: linking, disabling and enabling them, retiring a
    signing key and erasing a principal, each by the rows it writes and the rows it leaves. */
module WorkosMethods {
  import opened Basics
  import opened Wrappers
  import opened WorkosLedger
  import opened WorkosSafety
  import opened WorkosEffects

  /* ----------------------------------- link ----------------------------------- */

  /** The subject may become the principal's: it is nobody's, or it is the principal's own by
      a method that is disabled. */
  ghost predicate Attachable(l: Ledger, a: Assertion, principal: Id, newMethod: Id) {
    if a.subject in l.bindings then
      && l.bindings[a.subject].principal == principal
      && l.bindings[a.subject].methodId in l.methods
      && l.methods[l.bindings[a.subject].methodId] == AuthMethod(principal, false)
    else newMethod !in l.methods
  }

  /** The caller may link at all, and recently enough authenticated. */
  ghost predicate MayLink(l: Ledger, a: Assertion, ref: SessionRef, policy: SessionPolicy, now: int) {
    Eligible(l, ref, now) && now - l.sessions[ref].authenticatedAt <= policy.recentSeconds && now < a.expiresAt
  }

  lemma AttachesExactly(l: Ledger, a: Assertion, principal: Id, newMethod: Id) returns (b: Binding)
    requires RowsOk(l) && principal !in l.disabledPrincipals
    ensures Attach(l, a, principal, newMethod).Success? <==>
              a.key !in l.retiredKeys && Attachable(l, a, principal, newMethod)
    ensures Attach(l, a, principal, newMethod).Success? ==>
              && Attach(l, a, principal, newMethod).value == Attached(l, a.subject, b)
              && b.principal == principal && (a.subject in l.bindings ==> l.bindings[a.subject] == b)
              && (b.methodId in l.methods ==> !l.methods[b.methodId].active)
  {
    b := if a.subject in l.bindings then l.bindings[a.subject] else Binding(principal, newMethod);
    if a.subject in l.bindings {
      assert l.bindings[a.subject := b] == l.bindings;
    }
  }

  /** A freshly attached identity claims and ends exactly a provider session that is new. */
  lemma AttachedClaimsAndEnds(l: Ledger, a: Assertion, b: Binding, ref: SessionRef, now: int)
    requires RowsOk(l) && now < a.expiresAt && a.key !in l.retiredKeys && !Denied(l, a)
    requires a.subject in l.bindings ==> l.bindings[a.subject] == b
    requires b.methodId in l.methods ==> !l.methods[b.methodId].active
    ensures
      var claim := Claim(Attached(l, a.subject, b), a, b, Some(ref), now);
      && (claim.Success? <==> a.sid !in l.providers && !Consumed(l, a, now))
      && (claim.Success? ==> End(claim.value, a.sid, b, now, LinkCompleted).Success?)
  {
  }

  /** A link that is not complete commits exactly for an unconsumed assertion under an
      unretired key, without evidence against it, of a subject that may become the caller's,
      on a provider session that nobody has signed in with. */
  lemma LinksExactly(w: World, a: Assertion, ref: SessionRef, newMethod: Id, policy: SessionPolicy, now: int)
    requires Inv(w) && MayLink(w.ledger, a, ref, policy, now)
    requires CompletedLink(w.ledger, a, w.ledger.sessions[ref].principal, ref, now).None?
    ensures
      var l := w.ledger;
      Link(l, a, ref, newMethod, policy, now).Success? <==>
        && a.key !in l.retiredKeys && !Denied(l, a) && !Consumed(l, a, now)
        && a.sid !in l.providers && Attachable(l, a, l.sessions[ref].principal, newMethod)
  {
    var b := AttachesExactly(w.ledger, a, w.ledger.sessions[ref].principal, newMethod);
    if a.key !in w.ledger.retiredKeys && !Denied(w.ledger, a)
       && Attachable(w.ledger, a, w.ledger.sessions[ref].principal, newMethod)
    {
      AttachedClaimsAndEnds(w.ledger, a, b, ref, now);
    }
  }

  /** Why a link is refused. */
  lemma LinkRefusals(w: World, a: Assertion, ref: SessionRef, newMethod: Id, policy: SessionPolicy, now: int)
    requires Inv(w)
    ensures
      var (l, result) := (w.ledger, Link(w.ledger, a, ref, newMethod, policy, now));
      && (result == Failure(RecentAuthRequired) <==>
            Eligible(l, ref, now) && now - l.sessions[ref].authenticatedAt > policy.recentSeconds)
      && (result == Failure(LogoutRequired(a.sid)) <==>
            && MayLink(l, a, ref, policy, now) && a.subject !in l.erasedSubjects && a.sid in l.tombstones
            && CompletedLink(l, a, l.sessions[ref].principal, ref, now).None?)
      && (result == Failure(AlreadyLinked) <==>
            && MayLink(l, a, ref, policy, now) && !Denied(l, a) && a.subject in l.bindings
            && (l.bindings[a.subject].principal != l.sessions[ref].principal
                || l.methods[l.bindings[a.subject].methodId].active))
  {
    assert Eligible(w.ledger, ref, now) ==> SessionOk(w, w.ledger.sessions[ref]);
  }

  /** A provider session that is seen for the first time and ended at once. */
  lemma ClaimThenEndWrites(l: Ledger, a: Assertion, b: Binding, linking: Option<SessionRef>, now: int)
    requires RowsOk(l) && a.sid !in l.providers && Claim(l, a, b, linking, now).Success?
    requires End(Claim(l, a, b, linking, now).value, a.sid, b, now, LinkCompleted).Success?
    ensures
      var t := End(Claim(l, a, b, linking, now).value, a.sid, b, now, LinkCompleted).value;
      && t == l.(providers := l.providers[a.sid :=
                   ProviderSession(a.subject, b, false, now, now, a.expiresAt, Some(now))],
                 tombstones := l.tombstones[a.sid := Tombstone(now, LinkCompleted)],
                 exchanges := t.exchanges)
      && Consumes(l, t, a, linking, now)
  {
    ClaimWrites(l, a, b, linking, now);
  }

  /** A committed link makes the subject the caller's by an active method, records the provider
      session as seen and ended now, and consumes the assertion in the caller's name. It mints
      no session. */
  lemma LinkWrites(w: World, a: Assertion, ref: SessionRef, newMethod: Id, policy: SessionPolicy, now: int)
    requires Inv(w) && Link(w.ledger, a, ref, newMethod, policy, now).Success?
    requires Link(w.ledger, a, ref, newMethod, policy, now).value.0 != w.ledger
    ensures
      var l := w.ledger;
      var (t, m) := Link(l, a, ref, newMethod, policy, now).value;
      && ref in l.sessions
      && var b := Binding(l.sessions[ref].principal, m);
         && m == (if a.subject in l.bindings then l.bindings[a.subject].methodId else newMethod)
         && t == l.(methods := l.methods[m := AuthMethod(b.principal, true)], bindings := l.bindings[a.subject := b],
                    providers := l.providers[a.sid :=
                      ProviderSession(a.subject, b, false, now, now, a.expiresAt, Some(now))],
                    tombstones := l.tombstones[a.sid := Tombstone(now, LinkCompleted)],
                    exchanges := t.exchanges)
         && Consumes(l, t, a, Some(ref), now)
  {
    var b := LinkInStages(w.ledger, a, ref, newMethod, policy, now);
    var attached := Attached(w.ledger, a.subject, b);
    LinkIsFresh(w.ledger, a, ref, newMethod, policy, now, b);
    AttachKeepsRows(w.ledger, a.subject, b);
    ClaimThenEndWrites(attached, a, b, Some(ref), now);
  }

  /** The session that linked with each assertion, and the method it linked. */
  ghost function Links(w: World, steps: seq<Step>): map<Assertion, (SessionRef, Id)>
    decreases |steps|
  {
    if steps == [] then map[]
    else
      var (l, links) := (Run(w, steps[..|steps| - 1]).ledger, Links(w, steps[..|steps| - 1]));
      match steps[|steps| - 1]
      case DoLink(a, ref, newMethod, policy, now) =>
        (match Link(l, a, ref, newMethod, policy, now)
         case Success((after, m)) => if after == l then links else links[a := (ref, m)]
         case Failure(_) => links)
      case _ => links
  }

  ghost predicate LinksOk(w: World, links: map<Assertion, (SessionRef, Id)>) {
    && (forall a | a in links :: a.sid in w.owner && w.owner[a.sid].1.methodId == links[a].1)
    && (forall a | a in w.ledger.exchanges && w.ledger.exchanges[a].linking.Some? ::
          a in links && links[a].0 == w.ledger.exchanges[a].linking.value)
  }

  lemma LogoutKeepsExchanges(w: World, ref: SessionRef, now: int)
    ensures ApplyLogout(w, ref, now).ledger.exchanges == w.ledger.exchanges
  {
  }

  lemma QuietStepsKeepExchanges(w: World, step: Step)
    requires !step.DoLink? && !step.DoSignIn? && !step.DoErase? && !step.DoLogout?
    ensures Transact(w, step).ledger.exchanges == w.ledger.exchanges
  {
  }

  lemma SignInWritesNoLink(w: World, a: Assertion, admission: Option<Binding>, ref: SessionRef, policy: SessionPolicy,
                           now: int, x: Assertion)
    requires RowsOk(w.ledger)
    requires
      var t := ApplySignIn(w, a, admission, ref, policy, now).ledger.exchanges;
      x in t && t[x].linking.Some?
    ensures
      x in w.ledger.exchanges
      && w.ledger.exchanges[x] == ApplySignIn(w, a, admission, ref, policy, now).ledger.exchanges[x]
  {
    if SignIn(w.ledger, a, admission, ref, policy, now).Success? {
      SignInWrites(w.ledger, a, admission, ref, policy, now);
    }
  }

  /** Steps other than a link write no exchange in anybody's name. */
  lemma OtherStepsWriteNoLink(w: World, step: Step, x: Assertion)
    requires RowsOk(w.ledger) && !step.DoLink?
    requires x in Apply(w, step).ledger.exchanges && Apply(w, step).ledger.exchanges[x].linking.Some?
    ensures x in w.ledger.exchanges && w.ledger.exchanges[x] == Apply(w, step).ledger.exchanges[x]
  {
    var ticked := w.(clock := Max(w.clock, step.now));
    match step {
      case DoSignIn(a, admission, ref, policy, now) => SignInWritesNoLink(ticked, a, admission, ref, policy, now, x);
      case DoLogout(ref, now) => LogoutKeepsExchanges(ticked, ref, now);
      case DoErase(_, _) =>
      case _ => QuietStepsKeepExchanges(ticked, step);
    }
  }

  lemma LinksGrow(w: World, t: World, links: map<Assertion, (SessionRef, Id)>, a: Assertion, ref: SessionRef, m: Id,
                  now: int)
    requires LinksOk(w, links) && OwnersOk(t) && Consumes(w.ledger, t.ledger, a, Some(ref), now)
    requires forall sid | sid in w.owner :: sid in t.owner && t.owner[sid] == w.owner[sid]
    requires a.sid in t.ledger.providers && t.ledger.providers[a.sid].binding.methodId == m
    ensures LinksOk(t, links[a := (ref, m)])
  {
    forall x | x in links[a := (ref, m)]
      ensures x.sid in t.owner && t.owner[x.sid].1.methodId == links[a := (ref, m)][x].1
    {
      assert t.owner[a.sid] == (t.ledger.providers[a.sid].subject, t.ledger.providers[a.sid].binding);
    }
  }

  lemma LinkKeepsLinks(w: World, links: map<Assertion, (SessionRef, Id)>, a: Assertion, ref: SessionRef,
                       newMethod: Id, policy: SessionPolicy, now: int)
    requires Inv(w) && LinksOk(w, links)
    requires Link(w.ledger, a, ref, newMethod, policy, now).Success?
    requires Link(w.ledger, a, ref, newMethod, policy, now).value.0 != w.ledger
    ensures
      LinksOk(Apply(w, DoLink(a, ref, newMethod, policy, now)),
              links[a := (ref, Link(w.ledger, a, ref, newMethod, policy, now).value.1)])
  {
    var step := DoLink(a, ref, newMethod, policy, now);
    var t := Apply(w, step);
    assert t.ledger == Link(w.ledger, a, ref, newMethod, policy, now).value.0;
    assert OwnersOk(t) by {
      StepKeeps(w, step);
    }
    LinkWrites(w, a, ref, newMethod, policy, now);
    StepRemembers(w, step);
    LinksGrow(w, t, links, a, ref, Link(w.ledger, a, ref, newMethod, policy, now).value.1, now);
  }

  lemma {:induction false} RunKeepsLinks(clock: int, steps: seq<Step>)
    ensures LinksOk(Run(Init(clock), steps), Links(Init(clock), steps))
    decreases |steps|
  {
    if steps != [] {
      var (w, links) := (Run(Init(clock), steps[..|steps| - 1]), Links(Init(clock), steps[..|steps| - 1]));
      var step := steps[|steps| - 1];
      RunKeepsLinks(clock, steps[..|steps| - 1]);
      Reachable(clock, steps[..|steps| - 1]);
      StepRemembers(w, step);
      if step.DoLink? {
        var result := Link(w.ledger, step.assertion, step.ref, step.newMethod, step.policy, step.now);
        if result.Success? && result.value.0 != w.ledger {
          LinkKeepsLinks(w, links, step.assertion, step.ref, step.newMethod, step.policy, step.now);
        }
      } else {
        forall a | a in Apply(w, step).ledger.exchanges && Apply(w, step).ledger.exchanges[a].linking.Some?
          ensures a in links && links[a].0 == Apply(w, step).ledger.exchanges[a].linking.value
        {
          OtherStepsWriteNoLink(w, step, a);
        }
      }
    }
  }

  /** A link that changes nothing is a completed one: any other leaves a tombstone. */
  lemma UnchangingLinkIsComplete(l: Ledger, a: Assertion, ref: SessionRef, newMethod: Id, policy: SessionPolicy,
                                 now: int, m: Id)
    requires Link(l, a, ref, newMethod, policy, now) == Success((l, m))
    ensures MayLink(l, a, ref, policy, now) && CompletedLink(l, a, l.sessions[ref].principal, ref, now) == Some(m)
  {
  }

  /** A link that changes nothing repeats the caller's own: this very session linked with this
      very assertion before, and the method it reports is the one it linked then. */
  lemma LinkReadsItsOwn(clock: int, steps: seq<Step>, a: Assertion, ref: SessionRef, newMethod: Id,
                        policy: SessionPolicy, now: int, m: Id)
    requires var l := Run(Init(clock), steps).ledger; Link(l, a, ref, newMethod, policy, now) == Success((l, m))
    ensures a in Links(Init(clock), steps) && Links(Init(clock), steps)[a] == (ref, m)
    ensures
      var l := Run(Init(clock), steps).ledger;
      && Eligible(l, ref, now) && now < a.expiresAt
      && m in l.methods && l.methods[m] == AuthMethod(l.sessions[ref].principal, true)
      && a.subject in l.bindings && l.bindings[a.subject] == Binding(l.sessions[ref].principal, m)
  {
    var w := Run(Init(clock), steps);
    UnchangingLinkIsComplete(w.ledger, a, ref, newMethod, policy, now, m);
    assert OwnersOk(w) by {
      Reachable(clock, steps);
    }
    RunKeepsLinks(clock, steps);
    assert w.owner[a.sid] == (w.ledger.providers[a.sid].subject, w.ledger.providers[a.sid].binding);
  }

  /* ---------------------------- disabling and enabling ------------------------ */

  /** Disabling ends what came in through the method: its provider sessions are sealed, each
      with a tombstone, and its sessions that have not expired are revoked. What came in
      otherwise stays. */
  lemma DisableWrites(l: Ledger, methodId: Id, now: int)
    requires RowsOk(l) && methodId in l.methods && l.methods[methodId].active
    ensures
      var t := Disable(l, methodId, now);
      && t == l.(methods := l.methods[methodId := AuthMethod(l.methods[methodId].principal, false)],
                 providers := t.providers, tombstones := t.tombstones, sessions := t.sessions)
      && t.providers.Keys == l.providers.Keys && t.sessions.Keys == l.sessions.Keys
      && (forall sid | sid in l.providers ::
            var (p, at) := (l.providers[sid], Max(now, l.providers[sid].lastSeenAt));
            if p.active && p.binding == Binding(l.methods[methodId].principal, methodId) then
              && t.providers[sid] == p.(active := false, loggedOutAt := Some(at))
              && sid in t.tombstones && t.tombstones[sid] == Tombstone(at, MethodDisabled)
            else t.providers[sid] == p && (sid in t.tombstones <==> sid in l.tombstones))
      && (forall sid | sid in l.tombstones :: sid in t.tombstones && t.tombstones[sid] == l.tombstones[sid])
      && (forall sid | sid in t.tombstones :: sid in l.tombstones || sid in l.providers)
      && (forall r | r in l.sessions ::
            var s := l.sessions[r];
            t.sessions[r] ==
              if s.methodId == Some(methodId) && s.revokedAt.None? && now < s.expiresAt
              then s.(revokedAt := Some(now)) else s)
  {
  }

  /** A disabled method comes back only if its principal is active and no provider subject is
      bound to it, and a new one only for an active principal under a fresh name. */
  lemma MethodsAreGivenExactly(l: Ledger, methodId: Id, principal: Id)
    ensures
      var (registered, enabled) := (Register(l, methodId, principal), Enable(l, methodId));
      && registered == l.(methods := registered.methods) && enabled == l.(methods := enabled.methods)
      && (if methodId !in l.methods && principal !in l.disabledPrincipals
          then registered.methods == l.methods[methodId := AuthMethod(principal, true)] else registered == l)
      && (methodId in l.methods && !l.methods[methodId].active ==>
            if && l.methods[methodId].principal !in l.disabledPrincipals
               && forall subject | subject in l.bindings :: l.bindings[subject].methodId != methodId
            then enabled.methods == l.methods[methodId := AuthMethod(l.methods[methodId].principal, true)]
            else enabled == l)
  {
  }

  /* -------------------------------- revocations ------------------------------- */

  /** A revocation reaches exactly the named sessions that are not revoked yet, and a key's
      retirement exactly the live ones that it vouched for. */
  lemma RevokesExactly(l: Ledger, refs: set<SessionRef>, key: KeyId, now: int)
    ensures
      var (some, keyed) := (RevokeSome(l, refs, now), RetireKey(l, key, now));
      && some == l.(sessions := some.sessions) && some.sessions.Keys == l.sessions.Keys
      && keyed == l.(sessions := keyed.sessions, retiredKeys := l.retiredKeys + {key})
      && keyed.sessions.Keys == l.sessions.Keys
      && forall r | r in l.sessions ::
           var s := l.sessions[r];
           && some.sessions[r] == (if r in refs && s.revokedAt.None? then s.(revokedAt := Some(now)) else s)
           && keyed.sessions[r] ==
                (if s.key == Some(key) && s.revokedAt.None? && now < s.expiresAt && now < s.idleExpiresAt
                 then s.(revokedAt := Some(now)) else s)
  {
  }

  /** Erasing a principal leaves nothing of it but evidence: its methods are off, and its
      subjects and provider sessions are gone and denied for good. What belongs to others stays. */
  lemma ErasureDenies(l: Ledger, principal: Id, now: int)
    ensures
      var t := ErasePrincipal(l, principal, now);
      && t.disabledPrincipals == l.disabledPrincipals + {principal} && t.retiredKeys == l.retiredKeys
      && (forall subject | subject in l.bindings ::
            if l.bindings[subject].principal == principal then subject !in t.bindings && subject in t.erasedSubjects
            else subject in t.bindings && t.bindings[subject] == l.bindings[subject])
      && t.bindings.Keys <= l.bindings.Keys
      && l.erasedSubjects <= t.erasedSubjects <= l.erasedSubjects + l.bindings.Keys
      && t.methods.Keys == l.methods.Keys
      && (forall m | m in l.methods ::
            t.methods[m] == if l.methods[m].principal == principal then AuthMethod(principal, false) else l.methods[m])
      && (forall sid | sid in l.providers ::
            if l.providers[sid].binding.principal == principal then
              && sid !in t.providers && sid in t.tombstones
              && (sid !in l.tombstones ==> t.tombstones[sid] == Tombstone(now, SubjectErasure))
            else
              && sid in t.providers && t.providers[sid] == l.providers[sid]
              && (sid in t.tombstones <==> sid in l.tombstones))
      && t.providers.Keys <= l.providers.Keys && t.tombstones.Keys <= l.tombstones.Keys + l.providers.Keys
      && (forall sid | sid in l.tombstones :: sid in t.tombstones && t.tombstones[sid] == l.tombstones[sid])
  {
  }

  /** Its sessions are revoked, those that were not yet as of now, and know no provider any
      more; the assertions exchanged for its provider sessions are forgotten with them. */
  lemma ErasureRevokes(w: World, principal: Id, now: int)
    requires ExchangesOk(w)
    ensures
      var (l, t) := (w.ledger, ErasePrincipal(w.ledger, principal, now));
      && t.sessions.Keys == l.sessions.Keys
      && (forall r | r in l.sessions ::
            var s := l.sessions[r];
            t.sessions[r] ==
              if s.principal != principal then s
              else if s.revokedAt.Some? then s.(provider := None)
              else s.(provider := None, revokedAt := Some(now)))
      && (forall a | a in t.exchanges :: a in l.exchanges && t.exchanges[a] == l.exchanges[a])
      && (forall a | a in l.exchanges ::
            a !in t.exchanges <==> a.sid in l.providers && l.providers[a.sid].binding.principal == principal)
  {
  }

  /** Nobody erased comes back: in no continuation is one of its sessions eligible, and none of
      its subjects signs in or is linked again. */
  lemma ErasedForever(clock: int, steps: seq<Step>, principal: Id, now: int, later: seq<Step>, a: Assertion,
                      admission: Option<Binding>, ref: SessionRef, newMethod: Id, policy: SessionPolicy, at: int)
    requires
      var l := Run(Init(clock), steps).ledger;
      a.subject in l.bindings && l.bindings[a.subject].principal == principal
    ensures
      var t := Run(Init(clock), steps + [DoErase(principal, now)] + later).ledger;
      && (forall r, reading | r in t.sessions && t.sessions[r].principal == principal :: !Eligible(t, r, reading))
      && SignIn(t, a, admission, ref, policy, at) == Failure(Unauthorized)
      && Link(t, a, ref, newMethod, policy, at).Failure?
  {
    var erased := steps + [DoErase(principal, now)];
    assert erased[..|erased| - 1] == steps;
    var s, t := Continues(clock, erased, later);
    assert KeepsEvidence(s.ledger, t.ledger);
    assert a.subject in s.ledger.erasedSubjects && principal in s.ledger.disabledPrincipals;
  }
}
