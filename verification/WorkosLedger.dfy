/** The ledger of WorkOS provider sessions: which identity each one belongs to, the
    permanent tombstones that deny replay, the one-time exchange of signed assertions,
    and the local sessions minted from them.

    Fingerprints and assertion hashes are injective, so the tables are keyed by the
    session id and by the assertion itself. */
module WorkosLedger {
  import opened Basics
  import opened Wrappers

  type Sid = string
  type Subject = string
  type Id = nat
  type SessionRef = nat
  type KeyId = string

  /** A verified assertion; its claims are a function of the signed token. */
  datatype Assertion = Assertion(token: string, sid: Sid, subject: Subject, key: KeyId, issuedAt: int, expiresAt: int)

  datatype Binding = Binding(principal: Id, methodId: Id)

  datatype AuthMethod = AuthMethod(principal: Id, active: bool)

  datatype ProviderSession = ProviderSession(
    subject: Subject,
    binding: Binding,
    active: bool,
    createdAt: int,
    lastSeenAt: int,
    accessExpiresAt: int,
    loggedOutAt: Option<int>)

  datatype Reason = LoggedOut | LinkCompleted | MethodDisabled | SubjectErasure

  datatype Tombstone = Tombstone(at: int, reason: Reason)

  datatype Exchange = Exchange(sid: Sid, exchangedAt: int, expiresAt: int, linking: Option<SessionRef>)

  datatype LocalSession = LocalSession(
    principal: Id,
    methodId: Option<Id>,
    provider: Option<Sid>,
    key: Option<KeyId>,
    authenticatedAt: int,
    expiresAt: int,
    idleExpiresAt: int,
    revokedAt: Option<int>)

  /** Lifetimes of local sessions, and how old an authentication may be to link a method. */
  datatype SessionPolicy = SessionPolicy(ttlSeconds: int, idleSeconds: int, recentSeconds: int)

  datatype Ledger = Ledger(
    bindings: map<Subject, Binding>,
    methods: map<Id, AuthMethod>,
    providers: map<Sid, ProviderSession>,
    tombstones: map<Sid, Tombstone>,
    erasedSubjects: set<Subject>,
    exchanges: map<Assertion, Exchange>,
    sessions: map<SessionRef, LocalSession>,
    retiredKeys: set<KeyId>,
    disabledPrincipals: set<Id>)

  datatype Rejection =
    | Unauthorized
    | LogoutRequired(sid: Sid)
    | RecentAuthRequired
    | AlreadyExchanged
    | AlreadyLinked
    | Malformed

  /* --------------------------------- pieces ----------------------------------- */

  /** Permanent deny evidence; subject erasure wins over session recovery. */
  function TombstoneRejection(l: Ledger, a: Assertion): Option<Rejection> {
    if a.subject in l.erasedSubjects then Some(Unauthorized)
    else if a.sid in l.tombstones then Some(LogoutRequired(a.sid))
    else None
  }

  function Seen(p: ProviderSession, now: int, expiresAt: int): ProviderSession {
    p.(lastSeenAt := Max(p.lastSeenAt, now), accessExpiresAt := Max(p.accessExpiresAt, expiresAt))
  }

  predicate MayClaim(l: Ledger, a: Assertion, b: Binding) {
    a.sid in l.providers ==>
      l.providers[a.sid].active && l.providers[a.sid].subject == a.subject && l.providers[a.sid].binding == b
  }

  function Unexpired(l: Ledger, now: int): map<Assertion, Exchange> {
    map a | a in l.exchanges && l.exchanges[a].expiresAt > now :: l.exchanges[a]
  }

  /** Bind the provider session to the identity and consume the assertion. */
  function Claim(l: Ledger, a: Assertion, b: Binding, linking: Option<SessionRef>, now: int)
    : Result<Ledger, Rejection>
  {
    var exchanges := Unexpired(l, now);
    if a.expiresAt <= now || a.key in l.retiredKeys then Failure(Unauthorized)
    else if TombstoneRejection(l, a).Some? then Failure(TombstoneRejection(l, a).value)
    else if !MayClaim(l, a, b) then Failure(Unauthorized)
    else if a in exchanges then Failure(AlreadyExchanged)
    else
      var row := if a.sid in l.providers then Seen(l.providers[a.sid], now, a.expiresAt)
                 else ProviderSession(a.subject, b, true, now, now, a.expiresAt, None);
      Success(l.(providers := l.providers[a.sid := row],
              exchanges := exchanges[a := Exchange(a.sid, now, a.expiresAt, linking)]))
  }

  function SealedAt(p: ProviderSession, now: int): ProviderSession {
    p.(active := false, loggedOutAt := Some(Max(now, p.lastSeenAt)))
  }

  /** Seal one provider session and leave its tombstone. */
  function End(l: Ledger, sid: Sid, b: Binding, now: int, reason: Reason): Result<Ledger, Rejection> {
    if sid !in l.providers || !l.providers[sid].active || l.providers[sid].binding != b then Failure(Unauthorized)
    else if sid in l.tombstones then Failure(Unauthorized)
    else
      var row := SealedAt(l.providers[sid], now);
      Success(l.(providers := l.providers[sid := row],
              tombstones := l.tombstones[sid := Tombstone(row.loggedOutAt.value, reason)]))
  }

  /** Neither revoked nor expired, absolutely or by idling. */
  predicate Live(s: LocalSession, now: int) {
    s.revokedAt.None? && s.expiresAt > now && s.idleExpiresAt > now
  }

  /** Principal, method and signing key are read again on every use. A session without a
      method is a local proof and carries no provider session. */
  predicate Eligible(l: Ledger, ref: SessionRef, now: int) {
    && ref in l.sessions
    && var s := l.sessions[ref];
       && Live(s, now)
       && s.principal !in l.disabledPrincipals
       && (s.key.Some? ==> s.key.value !in l.retiredKeys)
       && (s.provider.Some? <==> s.key.Some?)
       && (s.methodId.None? ==> s.provider.None?)
       && (s.methodId.Some? ==>
             s.methodId.value in l.methods && l.methods[s.methodId.value] == AuthMethod(s.principal, true))
  }

  /* ------------------------------- transactions ------------------------------- */

  predicate ActiveBinding(l: Ledger, b: Binding) {
    && b.principal !in l.disabledPrincipals
    && b.methodId in l.methods && l.methods[b.methodId] == AuthMethod(b.principal, true)
  }

  /** The identity a sign-in resolves to: the bound subject, or a fresh admission. An
      admission never takes over a subject that is bound already. */
  function Resolve(l: Ledger, a: Assertion, admission: Option<Binding>): Result<Ledger, Rejection> {
    if TombstoneRejection(l, a).Some? then Failure(TombstoneRejection(l, a).value)
    else if a.subject in l.bindings && ActiveBinding(l, l.bindings[a.subject]) && a.key !in l.retiredKeys then
      Success(l)
    else if admission.None? then Failure(Unauthorized)
    else if a.subject in l.bindings then Failure(AlreadyLinked)
    else if a.key in l.retiredKeys || admission.value.principal in l.disabledPrincipals then Failure(Unauthorized)
    else if admission.value.methodId in l.methods then Failure(Malformed)
    else
      var b := admission.value;
      Success(l.(bindings := l.bindings[a.subject := b],
              methods := l.methods[b.methodId := AuthMethod(b.principal, true)]))
  }

  function IdleExpiry(policy: SessionPolicy, now: int, expiresAt: int): int {
    Min(now + policy.idleSeconds, expiresAt)
  }

  /** The local session of a sign-in: no longer than the assertion, and recent as of its issue. */
  function MintedSession(a: Assertion, b: Binding, policy: SessionPolicy, now: int): LocalSession {
    var expiresAt := Min(now + policy.ttlSeconds, a.expiresAt);
    LocalSession(b.principal, Some(b.methodId), Some(a.sid), Some(a.key), Min(a.issuedAt, now),
                 expiresAt, IdleExpiry(policy, now, expiresAt), None)
  }

  /** Sign in: resolve, claim, and mint a local session. `ref` and `admission` are fresh. */
  function SignIn(l: Ledger, a: Assertion, admission: Option<Binding>, ref: SessionRef, policy: SessionPolicy, now: int)
    : Result<Ledger, Rejection>
  {
    if a.expiresAt <= now then Failure(Unauthorized)
    else match Resolve(l, a, admission)
      case Failure(e) => Failure(e)
      case Success(resolved) =>
        var b := resolved.bindings[a.subject];
        match Claim(resolved, a, b, None, now)
        case Failure(e) => Failure(e)
        case Success(claimed) =>
          var s := MintedSession(a, b, policy, now);
          if !Live(s, now) || ref in claimed.sessions then Failure(Malformed)
          else Success(claimed.(sessions := claimed.sessions[ref := s]))
  }

  /** Using an eligible session slides its idle window once a quarter of it has passed. */
  function Slide(l: Ledger, ref: SessionRef, policy: SessionPolicy, now: int): Ledger {
    if !Eligible(l, ref, now) then l
    else
      var s := l.sessions[ref];
      var next := IdleExpiry(policy, now, s.expiresAt);
      if policy.idleSeconds - (s.idleExpiresAt - now) > policy.idleSeconds / 4 && next > s.idleExpiresAt
      then l.(sessions := l.sessions[ref := s.(idleExpiresAt := next)])
      else l
  }

  function Revoked(s: LocalSession, now: int): LocalSession {
    s.(revokedAt := Some(now))
  }

  predicate InProviderScope(s: LocalSession, principal: Id, sid: Sid) {
    s.principal == principal && s.provider == Some(sid) && s.revokedAt.None?
  }

  /** A revoked session whose provider session is already sealed, asking again in its lifetime. */
  predicate CompletedLogout(l: Ledger, ref: SessionRef, now: int) {
    && ref in l.sessions
    && var s := l.sessions[ref];
       && s.revokedAt.Some? && s.expiresAt > now && s.idleExpiresAt > now
       && s.provider.Some? && s.methodId.Some?
       && s.methodId.value in l.methods && l.methods[s.methodId.value].principal == s.principal
       && s.provider.value in l.providers && !l.providers[s.provider.value].active
       && l.providers[s.provider.value].binding == Binding(s.principal, s.methodId.value)
       && s.provider.value in l.tombstones
  }

  /** Log out: end the provider session, if any, and revoke its whole local scope. Asking
      again after a committed logout is a read. */
  function Logout(l: Ledger, ref: SessionRef, now: int): Result<Ledger, Rejection> {
    if CompletedLogout(l, ref, now) then Success(l)
    else if !Eligible(l, ref, now) then Failure(Unauthorized)
    else
      var s := l.sessions[ref];
      if s.provider.None? then Success(l.(sessions := l.sessions[ref := Revoked(s, now)]))
      else if s.methodId.None? then Failure(Unauthorized)
      else match End(l, s.provider.value, Binding(s.principal, s.methodId.value), now, LoggedOut)
        case Failure(e) => Failure(e)
        case Success(ended) =>
          Success(ended.(sessions := map r | r in l.sessions ::
            if InProviderScope(l.sessions[r], s.principal, s.provider.value) then Revoked(l.sessions[r], now)
            else l.sessions[r]))
  }

  /** The successor keeps scope, key, expiry and authentication time, with a fresh idle window. */
  function Rotate(l: Ledger, ref: SessionRef, successor: SessionRef, policy: SessionPolicy, now: int)
    : Result<Ledger, Rejection>
  {
    if !Eligible(l, ref, now) || successor in l.sessions then Failure(Unauthorized)
    else
      var s := l.sessions[ref];
      var next := s.(idleExpiresAt := IdleExpiry(policy, now, s.expiresAt));
      Success(l.(sessions := l.sessions[ref := Revoked(s, now)][successor := next]))
  }

  /** The method of an already committed link by this very assertion and session. */
  function CompletedLink(l: Ledger, a: Assertion, principal: Id, ref: SessionRef, now: int): Option<Id> {
    if && a.sid in l.providers && !l.providers[a.sid].active
       && l.providers[a.sid].subject == a.subject && l.providers[a.sid].binding.principal == principal
       && a.sid in l.tombstones && l.tombstones[a.sid].reason.LinkCompleted?
       && a in l.exchanges && l.exchanges[a].sid == a.sid
       && l.exchanges[a].linking == Some(ref) && l.exchanges[a].expiresAt > now
       && a.subject in l.bindings && l.bindings[a.subject] == l.providers[a.sid].binding
       && l.providers[a.sid].binding.methodId in l.methods
       && l.methods[l.providers[a.sid].binding.methodId] == AuthMethod(principal, true)
    then Some(l.providers[a.sid].binding.methodId)
    else None
  }

  /** Attach a new or disabled identity to the principal; a linked one is refused. */
  function Attach(l: Ledger, a: Assertion, principal: Id, newMethod: Id): Result<Ledger, Rejection> {
    if principal in l.disabledPrincipals then Failure(Unauthorized)
    else if a.subject in l.bindings then
      var b := l.bindings[a.subject];
      if b.principal != principal then Failure(AlreadyLinked)
      else if b.methodId !in l.methods || l.methods[b.methodId].principal != principal then Failure(Unauthorized)
      else if l.methods[b.methodId].active then Failure(AlreadyLinked)
      else if a.key in l.retiredKeys then Failure(Unauthorized)
      else Success(l.(methods := l.methods[b.methodId := AuthMethod(principal, true)]))
    else if a.key in l.retiredKeys then Failure(Unauthorized)
    else if newMethod in l.methods then Failure(Malformed)
    else Success(l.(methods := l.methods[newMethod := AuthMethod(principal, true)],
                 bindings := l.bindings[a.subject := Binding(principal, newMethod)]))
  }

  /** Denial evidence a committed link does not explain. */
  function LinkPrecheck(l: Ledger, a: Assertion): Option<Rejection> {
    if a.subject in l.erasedSubjects then Some(Unauthorized)
    else if a.sid in l.tombstones && !l.tombstones[a.sid].reason.LinkCompleted? then Some(LogoutRequired(a.sid))
    else None
  }

  /** Link a WorkOS identity to the caller's account. Retrying a committed link is a read. */
  function Link(l: Ledger, a: Assertion, ref: SessionRef, newMethod: Id, policy: SessionPolicy, now: int)
    : Result<(Ledger, Id), Rejection>
  {
    if !Eligible(l, ref, now) then Failure(Unauthorized)
    else if now - l.sessions[ref].authenticatedAt > policy.recentSeconds then Failure(RecentAuthRequired)
    else if a.expiresAt <= now then Failure(Unauthorized)
    else if LinkPrecheck(l, a).Some? then Failure(LinkPrecheck(l, a).value)
    else
      var principal := l.sessions[ref].principal;
      if CompletedLink(l, a, principal, ref, now).Some? then
        Success((l, CompletedLink(l, a, principal, ref, now).value))
      else if TombstoneRejection(l, a).Some? then Failure(TombstoneRejection(l, a).value)
      else match Attach(l, a, principal, newMethod)
        case Failure(e) => Failure(e)
        case Success(attached) =>
          var b := attached.bindings[a.subject];
          match Claim(attached, a, b, Some(ref), now)
          case Failure(e) => Failure(e)
          case Success(claimed) =>
            match End(claimed, a.sid, b, now, LinkCompleted)
            case Failure(e) => Failure(e)
            case Success(ended) => Success((ended, b.methodId))
  }

  predicate SealedByDisabling(p: ProviderSession, b: Binding) {
    p.active && p.binding == b
  }

  /** Disabling a method seals its provider sessions and revokes its unexpired local ones. */
  function Disable(l: Ledger, methodId: Id, now: int): Ledger {
    if methodId !in l.methods || !l.methods[methodId].active then l
    else
      var b := Binding(l.methods[methodId].principal, methodId);
      var sealed := set sid | sid in l.providers && SealedByDisabling(l.providers[sid], b);
      var evidence := map sid | sid in sealed :: Tombstone(Max(now, l.providers[sid].lastSeenAt), MethodDisabled);
      l.(methods := l.methods[methodId := AuthMethod(b.principal, false)],
      providers := map sid | sid in l.providers ::
        if sid in sealed then SealedAt(l.providers[sid], now) else l.providers[sid],
      tombstones := l.tombstones + evidence,
      sessions := map r | r in l.sessions ::
        if l.sessions[r].methodId == Some(methodId) && l.sessions[r].revokedAt.None? && l.sessions[r].expiresAt > now
        then Revoked(l.sessions[r], now) else l.sessions[r])
  }

  /** Other revocations, as of a principal's sessions. */
  function RevokeSome(l: Ledger, refs: set<SessionRef>, now: int): Ledger {
    l.(sessions := map r | r in l.sessions ::
      if r in refs && l.sessions[r].revokedAt.None? then Revoked(l.sessions[r], now) else l.sessions[r])
  }

  /** Retiring a signing key is for good and revokes every live session it vouched for. */
  function RetireKey(l: Ledger, key: KeyId, now: int): Ledger {
    l.(retiredKeys := l.retiredKeys + {key},
    sessions := map r | r in l.sessions ::
      if l.sessions[r].key == Some(key) && Live(l.sessions[r], now) then Revoked(l.sessions[r], now) else l.sessions[r])
  }

  /** Another method, as of a classic account. */
  function Register(l: Ledger, methodId: Id, principal: Id): Ledger {
    if methodId in l.methods || principal in l.disabledPrincipals then l
    else l.(methods := l.methods[methodId := AuthMethod(principal, true)])
  }

  /** A disabled method that no provider subject is bound to may be enabled again. */
  function Enable(l: Ledger, methodId: Id): Ledger {
    if || methodId !in l.methods || l.methods[methodId].principal in l.disabledPrincipals
       || (exists subject :: subject in l.bindings && l.bindings[subject].methodId == methodId)
    then l
    else l.(methods := l.methods[methodId := l.methods[methodId].(active := true)])
  }

  /** Subject erasure: tombstones stay, rows and bindings go, sessions lose their provider. */
  function ErasePrincipal(l: Ledger, principal: Id, now: int): Ledger {
    var gone := set sid | sid in l.providers && l.providers[sid].binding.principal == principal;
    var erased := set subject | subject in l.bindings && l.bindings[subject].principal == principal;
    l.(erasedSubjects := l.erasedSubjects + erased,
    disabledPrincipals := l.disabledPrincipals + {principal},
    tombstones := (map sid | sid in gone :: Tombstone(now, SubjectErasure)) + l.tombstones,
    exchanges := map a | a in l.exchanges && l.exchanges[a].sid !in gone :: l.exchanges[a],
    sessions := map r | r in l.sessions ::
      if l.sessions[r].principal == principal
      then l.sessions[r].(
        revokedAt := if l.sessions[r].revokedAt.Some? then l.sessions[r].revokedAt else Some(now),
        provider := None)
      else l.sessions[r],
    providers := l.providers - gone,
    bindings := map subject | subject in l.bindings && l.bindings[subject].principal != principal ::
      l.bindings[subject],
    methods := map m | m in l.methods ::
      if l.methods[m].principal == principal then AuthMethod(principal, false) else l.methods[m])
  }

  /* ------------------------------------ runs ---------------------------------- */

  datatype Step =
    | DoSignIn(assertion: Assertion, admission: Option<Binding>, ref: SessionRef, policy: SessionPolicy, now: int)
    | DoUse(ref: SessionRef, policy: SessionPolicy, now: int)
    | DoLogout(ref: SessionRef, now: int)
    | DoRotate(ref: SessionRef, successor: SessionRef, policy: SessionPolicy, now: int)
    | DoLink(assertion: Assertion, ref: SessionRef, newMethod: Id, policy: SessionPolicy, now: int)
    | OpenLocalSession(ref: SessionRef, session: LocalSession, now: int)
    | DoRegister(methodId: Id, principal: Id, now: int)
    | DoEnable(methodId: Id, now: int)
    | DoDisable(methodId: Id, now: int)
    | DoDisablePrincipal(principal: Id, now: int)
    | DoRevoke(refs: set<SessionRef>, now: int)
    | DoRetireKey(key: KeyId, now: int)
    | DoErase(principal: Id, now: int)

  /** `clock` is the latest reading of any step, `exchanged` lists every assertion consumed
      and `exchangedAt` the reading it was consumed at, `loggedOut` has every provider session
      a committed logout ended, `linked` the ones a link ended, and `owner` tells whom each
      provider session was first claimed for. */
  datatype World = World(
    clock: int,
    ledger: Ledger,
    exchanged: seq<Assertion>,
    exchangedAt: seq<int>,
    loggedOut: set<Sid>,
    linked: set<Sid>,
    owner: map<Sid, (Subject, Binding)>)

  function Init(clock: int): World {
    World(clock, Ledger(map[], map[], map[], map[], {}, map[], map[], {}, {}), [], [], {}, {}, map[])
  }

  function Owned(w: World, a: Assertion, b: Binding): map<Sid, (Subject, Binding)> {
    if a.sid in w.owner then w.owner else w.owner[a.sid := (a.subject, b)]
  }

  /** The world after an exchange of this assertion led to this ledger. */
  function Exchanged(w: World, a: Assertion, after: Ledger, now: int): World {
    w.(ledger := after, exchanged := w.exchanged + [a], exchangedAt := w.exchangedAt + [now],
    owner := if a.subject in after.bindings then Owned(w, a, after.bindings[a.subject]) else w.owner)
  }

  /** A session opened by other means: it carries no provider session and no signing key. */
  predicate OpensLocally(l: Ledger, ref: SessionRef, s: LocalSession) {
    && ref !in l.sessions && s.provider.None? && s.key.None?
    && (s.methodId.Some? ==>
          s.methodId.value in l.methods && l.methods[s.methodId.value] == AuthMethod(s.principal, true))
  }

  function ApplySignIn(w: World, a: Assertion, admission: Option<Binding>, ref: SessionRef, policy: SessionPolicy,
                       now: int)
    : World
  {
    match SignIn(w.ledger, a, admission, ref, policy, now)
    case Failure(_) => w
    case Success(after) => Exchanged(w, a, after, now)
  }

  function ApplyLogout(w: World, ref: SessionRef, now: int): World {
    match Logout(w.ledger, ref, now)
    case Failure(_) => w
    case Success(after) =>
      if after == w.ledger then w
      else w.(ledger := after,
           loggedOut := if ref in w.ledger.sessions && w.ledger.sessions[ref].provider.Some?
                        then w.loggedOut + {w.ledger.sessions[ref].provider.value} else w.loggedOut)
  }

  function ApplyRotate(w: World, ref: SessionRef, successor: SessionRef, policy: SessionPolicy, now: int): World {
    match Rotate(w.ledger, ref, successor, policy, now)
    case Failure(_) => w
    case Success(after) => w.(ledger := after)
  }

  function ApplyLink(w: World, a: Assertion, ref: SessionRef, newMethod: Id, policy: SessionPolicy, now: int): World {
    match Link(w.ledger, a, ref, newMethod, policy, now)
    case Failure(_) => w
    case Success((after, methodId)) =>
      if after == w.ledger then w else Exchanged(w, a, after, now).(linked := w.linked + {a.sid})
  }

  /** One transaction at its own reading of the clock, which may lie before the readings of
      transactions that committed earlier. */
  function Transact(w: World, step: Step): World {
    match step
    case DoSignIn(a, admission, ref, policy, now) => ApplySignIn(w, a, admission, ref, policy, now)
    case DoUse(ref, policy, now) => w.(ledger := Slide(w.ledger, ref, policy, now))
    case DoLogout(ref, now) => ApplyLogout(w, ref, now)
    case DoRotate(ref, successor, policy, now) => ApplyRotate(w, ref, successor, policy, now)
    case DoLink(a, ref, newMethod, policy, now) => ApplyLink(w, a, ref, newMethod, policy, now)
    case OpenLocalSession(ref, session, now) =>
      if OpensLocally(w.ledger, ref, session)
      then w.(ledger := w.ledger.(sessions := w.ledger.sessions[ref := session])) else w
    case DoRegister(methodId, principal, now) => w.(ledger := Register(w.ledger, methodId, principal))
    case DoEnable(methodId, now) => w.(ledger := Enable(w.ledger, methodId))
    case DoDisable(methodId, now) => w.(ledger := Disable(w.ledger, methodId, now))
    case DoDisablePrincipal(principal, now) =>
      w.(ledger := w.ledger.(disabledPrincipals := w.ledger.disabledPrincipals + {principal}))
    case DoRevoke(refs, now) => w.(ledger := RevokeSome(w.ledger, refs, now))
    case DoRetireKey(key, now) => w.(ledger := RetireKey(w.ledger, key, now))
    case DoErase(principal, now) => w.(ledger := ErasePrincipal(w.ledger, principal, now))
  }

  function Apply(w: World, step: Step): World {
    Transact(w.(clock := Max(w.clock, step.now)), step)
  }

  function Run(w: World, steps: seq<Step>): World {
    if steps == [] then w else Apply(Run(w, steps[..|steps| - 1]), steps[|steps| - 1])
  }
}
