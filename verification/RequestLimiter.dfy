/** The fixed-window limiter on public authentication requests: one row per scope, a
    lockout once the window's attempts are used up, and opportunistic deletion of rows
    that have gone stale. */
module RequestLimiter {
  import opened Basics
  import opened Wrappers

  datatype Policy = Policy(windowSeconds: int, lockoutSeconds: int, retentionSeconds: int)

  datatype Row = Row(windowStartedAt: int, attemptCount: int, blockedUntil: Option<int>, updatedAt: int)

  type Table = map<string, Row>

  datatype Decision = Allowed | Limited(retryAfter: int)

  predicate Blocked(row: Row, now: int) {
    row.blockedUntil.Some? && row.blockedUntil.value > now
  }

  predicate Stale(row: Row, now: int, p: Policy) {
    row.updatedAt < now - p.retentionSeconds && !Blocked(row, now)
  }

  predicate WindowOver(row: Row, now: int, p: Policy) {
    row.windowStartedAt + p.windowSeconds <= now
  }

  /** A row the first time a scope is seen: its limit is not looked at. */
  function FirstRow(now: int): Row {
    Row(now, 1, None, now)
  }

  function NextRow(row: Row, now: int, maxAttempts: int, p: Policy): Row {
    var over := WindowOver(row, now, p);
    var count := if over then 1 else row.attemptCount + 1;
    Row(if over then now else row.windowStartedAt, count,
        if count >= maxAttempts then Some(now + p.lockoutSeconds) else None, now)
  }

  function Upsert(t: Table, scope: string, now: int, maxAttempts: int, p: Policy): Row {
    if scope in t then NextRow(t[scope], now, maxAttempts, p) else FirstRow(now)
  }

  function Decide(row: Row, now: int): Decision {
    if Blocked(row, now) then Limited(row.blockedUntil.value - now) else Allowed
  }

  /** One request; `collected` are the stale rows its cleanup reached. */
  datatype Request = Request(scope: string, now: int, maxAttempts: int, collected: set<string>)

  function Collects(t: Table, r: Request, p: Policy): set<string> {
    set scope | scope in r.collected && scope in t && Stale(t[scope], r.now, p)
  }

  function Serve(t: Table, r: Request, p: Policy): (Table, Decision) {
    if r.scope in t && Blocked(t[r.scope], r.now) then
      (t, Decide(t[r.scope], r.now))
    else
      var kept := t - Collects(t, r, p);
      var row := Upsert(kept, r.scope, r.now, r.maxAttempts, p);
      (kept[r.scope := row], Decide(row, r.now))
  }

  const CLEANUP_BATCH := 256

  class Limiter {
    var rows: Table

    constructor ()
      ensures rows == map[]
    {
      rows := map[];
    }

    /** Count a request against its scope. The cleanup query reaches at most a batch of
        stale rows, and skips the ones other requests hold. */
    method EnforceRequestLimit(r: Request, p: Policy) returns (decision: Decision)
      requires |r.collected| <= CLEANUP_BATCH
      requires forall scope | scope in r.collected :: scope in rows && Stale(rows[scope], r.now, p)
      modifies this
      ensures (rows, decision) == Serve(old(rows), r, p)
      // A scope that is locked out waits for the end of its lockout, and nothing is written;
      // one that is refused otherwise is locked out from now on.
      ensures var blocked := r.scope in old(rows) && Blocked(old(rows)[r.scope], r.now);
              if blocked then
                rows == old(rows) && decision == Limited(old(rows)[r.scope].blockedUntil.value - r.now)
              else
                && r.scope in rows && rows[r.scope].updatedAt == r.now
                && (decision.Limited? ==>
                      && decision.retryAfter == p.lockoutSeconds
                      && rows[r.scope].blockedUntil == Some(r.now + p.lockoutSeconds))
                && rows.Keys == old(rows).Keys - r.collected + {r.scope}
                && forall scope | scope in rows && scope != r.scope :: rows[scope] == old(rows)[scope]
    {
      if r.scope in rows {
        var blockedUntil := rows[r.scope].blockedUntil;
        if blockedUntil.Some? && blockedUntil.value > r.now {
          return Limited(blockedUntil.value - r.now);
        }
      }
      assert Collects(rows, r, p) == r.collected;
      rows := rows - r.collected;
      var row := FirstRow(r.now);
      if r.scope in rows {
        row := rows[r.scope];
        if row.windowStartedAt + p.windowSeconds <= r.now {
          row := row.(windowStartedAt := r.now, attemptCount := 1);
        } else {
          row := row.(attemptCount := row.attemptCount + 1);
        }
        row := row.(
          blockedUntil := if row.attemptCount >= r.maxAttempts then Some(r.now + p.lockoutSeconds) else None,
          updatedAt := r.now);
      }
      rows := rows[r.scope := row];
      if row.blockedUntil.Some? && row.blockedUntil.value > r.now {
        return Limited(row.blockedUntil.value - r.now);
      }
      return Allowed;
    }
  }

  /* ------------------------------------ runs ---------------------------------- */

  ghost predicate Clocked(rs: seq<Request>) {
    forall i, j | 0 <= i <= j < |rs| :: rs[i].now <= rs[j].now
  }

  /** Every limit this scope was served under allows at least one attempt. */
  ghost predicate AllowsSome(rs: seq<Request>, scope: string) {
    forall i | 0 <= i < |rs| && rs[i].scope == scope :: rs[i].maxAttempts >= 2
  }

  ghost predicate Sensible(p: Policy) {
    p.lockoutSeconds >= 1 && p.retentionSeconds >= p.windowSeconds
  }

  function RunTable(rs: seq<Request>, p: Policy): Table {
    if rs == [] then map[] else Serve(RunTable(rs[..|rs| - 1], p), rs[|rs| - 1], p).0
  }

  /** The answer to the last request of a run. */
  function LastDecision(rs: seq<Request>, p: Policy): Decision
    requires rs != []
  {
    Serve(RunTable(rs[..|rs| - 1], p), rs[|rs| - 1], p).1
  }

  /* --------------------------- collection is invisible ------------------------ */

  function WithoutCleanup(rs: seq<Request>): seq<Request> {
    seq(|rs|, i requires 0 <= i < |rs| => rs[i].(collected := {}))
  }

  /** The scope's row survives collection unchanged, or it has stopped to matter. */
  ghost predicate SameOrDead(t: Table, full: Table, scope: string, now: int, p: Policy) {
    && (scope in full ==> full[scope].windowStartedAt <= full[scope].updatedAt <= now)
    && if scope in t then scope in full && full[scope] == t[scope]
       else scope in full ==> WindowOver(full[scope], now, p) && !Blocked(full[scope], now)
  }

  lemma ServeSame(t: Table, full: Table, scope: string, before: int, r: Request, p: Policy)
    requires Sensible(p) && before <= r.now
    requires r.scope == scope ==> r.maxAttempts >= 2
    requires SameOrDead(t, full, scope, before, p)
    ensures SameOrDead(Serve(t, r, p).0, Serve(full, r.(collected := {}), p).0, scope, r.now, p)
    ensures r.scope == scope ==> Serve(t, r, p).1 == Serve(full, r.(collected := {}), p).1
    ensures r.scope == scope && Serve(t, r, p).1.Allowed? ==>
              Serve(t, r, p).0[scope] == Serve(full, r.(collected := {}), p).0[scope]
  {
    assert full - Collects(full, r.(collected := {}), p) == full;
  }

  lemma {:induction false} CleanupKeepsRow(rs: seq<Request>, scope: string, p: Policy, now: int)
    requires Sensible(p) && Clocked(rs) && AllowsSome(rs, scope)
    requires rs != [] ==> rs[|rs| - 1].now <= now
    ensures SameOrDead(RunTable(rs, p), RunTable(WithoutCleanup(rs), p), scope, now, p)
    ensures WithoutCleanup(rs) != [] ==> WithoutCleanup(rs)[..|rs| - 1] == WithoutCleanup(rs[..|rs| - 1])
    decreases |rs|
  {
    if rs != [] {
      var prefix := rs[..|rs| - 1];
      var r := rs[|rs| - 1];
      CleanupKeepsRow(prefix, scope, p, r.now);
      assert WithoutCleanup(rs)[..|rs| - 1] == WithoutCleanup(prefix);
      ServeSame(RunTable(prefix, p), RunTable(WithoutCleanup(prefix), p), scope, r.now, r, p);
    }
  }

  /** Every request of every run gets the same decision and the same retry-after as if
      no row were ever deleted. */
  lemma CleanupIsInvisible(rs: seq<Request>, p: Policy)
    requires Sensible(p) && Clocked(rs) && rs != [] && AllowsSome(rs, rs[|rs| - 1].scope)
    ensures LastDecision(rs, p) == LastDecision(WithoutCleanup(rs), p)
  {
    var prefix := rs[..|rs| - 1];
    var r := rs[|rs| - 1];
    CleanupKeepsRow(prefix, r.scope, p, r.now);
    assert WithoutCleanup(rs)[..|rs| - 1] == WithoutCleanup(prefix);
    ServeSame(RunTable(prefix, p), RunTable(WithoutCleanup(prefix), p), r.scope, r.now, r, p);
  }

  /* ----------------------------- how much is accepted ------------------------- */

  ghost predicate AcceptedLast(rs: seq<Request>, p: Policy, scope: string) {
    rs != [] && rs[|rs| - 1].scope == scope && LastDecision(rs, p).Allowed?
  }

  /** The requests of a scope accepted in the half-open interval of one window's length
      that starts at `from`. */
  ghost function AcceptedFrom(rs: seq<Request>, p: Policy, scope: string, from: int): nat {
    if rs == [] then 0
    else
      AcceptedFrom(rs[..|rs| - 1], p, scope, from)
      + if AcceptedLast(rs, p, scope) && from <= rs[|rs| - 1].now < from + p.windowSeconds then 1 else 0
  }

  /** The requests of a scope accepted while its row carried this window. */
  ghost function AcceptedInWindow(rs: seq<Request>, p: Policy, scope: string, window: int): nat {
    if rs == [] then 0
    else
      AcceptedInWindow(rs[..|rs| - 1], p, scope, window)
      + if AcceptedLast(rs, p, scope) && scope in RunTable(rs, p) && RunTable(rs, p)[scope].windowStartedAt == window
        then 1 else 0
  }

  ghost predicate ScopeLimit(rs: seq<Request>, scope: string, max: int) {
    forall i | 0 <= i < |rs| && rs[i].scope == scope :: rs[i].maxAttempts == max
  }

  /** With and without collection the last request is accepted alike, in the same window. */
  lemma LastIgnoresCleanup(rs: seq<Request>, p: Policy, scope: string)
    requires Sensible(p) && Clocked(rs) && AllowsSome(rs, scope) && rs != []
    ensures
      var full := WithoutCleanup(rs);
      && full[..|rs| - 1] == WithoutCleanup(rs[..|rs| - 1])
      && AcceptedLast(full, p, scope) == AcceptedLast(rs, p, scope)
      && (AcceptedLast(rs, p, scope) ==>
            scope in RunTable(rs, p) && scope in RunTable(full, p)
              && RunTable(rs, p)[scope] == RunTable(full, p)[scope])
  {
    var prefix := rs[..|rs| - 1];
    var r := rs[|rs| - 1];
    CleanupKeepsRow(prefix, scope, p, r.now);
    assert WithoutCleanup(rs)[..|rs| - 1] == WithoutCleanup(prefix);
    ServeSame(RunTable(prefix, p), RunTable(WithoutCleanup(prefix), p), scope, r.now, r, p);
  }

  lemma {:induction false} IntervalIgnoresCleanup(rs: seq<Request>, p: Policy, scope: string, from: int)
    requires Sensible(p) && Clocked(rs) && AllowsSome(rs, scope)
    ensures AcceptedFrom(rs, p, scope, from) == AcceptedFrom(WithoutCleanup(rs), p, scope, from)
    decreases |rs|
  {
    if rs != [] {
      IntervalIgnoresCleanup(rs[..|rs| - 1], p, scope, from);
      LastIgnoresCleanup(rs, p, scope);
    }
  }

  lemma {:induction false} WindowIgnoresCleanup(rs: seq<Request>, p: Policy, scope: string, window: int)
    requires Sensible(p) && Clocked(rs) && AllowsSome(rs, scope)
    ensures AcceptedInWindow(rs, p, scope, window) == AcceptedInWindow(WithoutCleanup(rs), p, scope, window)
    decreases |rs|
  {
    if rs != [] {
      WindowIgnoresCleanup(rs[..|rs| - 1], p, scope, window);
      LastIgnoresCleanup(rs, p, scope);
    }
  }

  /** The accepted attempts of a row's own window. */
  function Used(row: Row, max: int): int {
    Min(row.attemptCount, max - 1)
  }

  /** What a scope's row says about the requests accepted in the interval and per window. */
  ghost predicate RowBounds(row: Row, accepted: int, now: int, from: int, max: int, p: Policy) {
    && 1 <= row.attemptCount && row.windowStartedAt <= row.updatedAt <= now
    && (row.attemptCount >= max ==> row.blockedUntil.Some?)
    && (row.windowStartedAt < from ==> accepted <= Used(row, max) - 1)
    && (from <= row.windowStartedAt < from + p.windowSeconds ==> accepted <= (max - 2) + Used(row, max))
    && accepted <= 2 * max - 3
  }

  lemma {:induction false} IntervalInvariant(rs: seq<Request>, p: Policy, scope: string, max: int, from: int, now: int)
    requires Sensible(p) && Clocked(rs) && ScopeLimit(rs, scope, max) && max >= 2
    requires forall i | 0 <= i < |rs| :: rs[i].collected == {}
    requires rs != [] ==> rs[|rs| - 1].now <= now
    ensures var accepted := AcceptedFrom(rs, p, scope, from);
            && (now < from ==> accepted == 0)
            && (if scope in RunTable(rs, p) then RowBounds(RunTable(rs, p)[scope], accepted, now, from, max, p)
                else accepted == 0)
    decreases |rs|
  {
    if rs != [] {
      var r := rs[|rs| - 1];
      var t := RunTable(rs[..|rs| - 1], p);
      IntervalInvariant(rs[..|rs| - 1], p, scope, max, from, r.now);
      assert t - Collects(t, r, p) == t;
      assert forall i | 0 <= i < |rs| - 1 :: rs[i].now <= r.now;
    }
  }

  /** In any run, an interval of one window's length accepts at most 2 * max - 3 requests
      of a scope, one fewer than twice the accepted attempts of a window. */
  lemma IntervalBound(rs: seq<Request>, p: Policy, scope: string, max: int, from: int)
    requires Sensible(p) && Clocked(rs) && ScopeLimit(rs, scope, max) && max >= 2
    ensures AcceptedFrom(rs, p, scope, from) <= 2 * max - 3 < 2 * (max - 1)
  {
    if rs != [] {
      IntervalIgnoresCleanup(rs, p, scope, from);
      IntervalInvariant(WithoutCleanup(rs), p, scope, max, from, rs[|rs| - 1].now);
    }
  }

  /** Twice a window's allowance bounds all runs exactly when the limit is at least two:
      under a smaller limit the first request of a scope is let through all the same. */
  lemma BoundNeedsTwoAttempts(p: Policy, scope: string, max: int)
    requires Sensible(p) && p.windowSeconds >= 1
    ensures (forall rs, from | Clocked(rs) && ScopeLimit(rs, scope, max) ::
             AcceptedFrom(rs, p, scope, from) <= 2 * (max - 1))
            <==> max >= 2
  {
    if max >= 2 {
      forall rs, from | Clocked(rs) && ScopeLimit(rs, scope, max)
        ensures AcceptedFrom(rs, p, scope, from) <= 2 * (max - 1)
      {
        IntervalBound(rs, p, scope, max, from);
      }
    } else {
      var rs := [Request(scope, 0, max, {})];
      assert RunTable(rs[..0], p) == map[];
      assert AcceptedFrom(rs, p, scope, 0) == 1;
      assert Clocked(rs) && ScopeLimit(rs, scope, max);
    }
  }

  /* per window */

  lemma {:induction false} WindowInvariant(rs: seq<Request>, p: Policy, scope: string, max: int, window: int)
    requires Sensible(p) && p.windowSeconds >= 1 && Clocked(rs) && ScopeLimit(rs, scope, max) && max >= 2
    requires forall i | 0 <= i < |rs| :: rs[i].collected == {}
    ensures var accepted := AcceptedInWindow(rs, p, scope, window);
            && accepted <= max - 1
            && (scope !in RunTable(rs, p) ==> accepted == 0)
            && (scope in RunTable(rs, p) ==>
                  var row := RunTable(rs, p)[scope];
                  && 1 <= row.attemptCount
                  && (row.attemptCount >= max ==> row.blockedUntil.Some?)
                  && (window == row.windowStartedAt ==> accepted == Used(row, max))
                  && (window > row.windowStartedAt ==> accepted == 0))
    decreases |rs|
  {
    if rs != [] {
      var r := rs[|rs| - 1];
      var t := RunTable(rs[..|rs| - 1], p);
      WindowInvariant(rs[..|rs| - 1], p, scope, max, window);
      assert t - Collects(t, r, p) == t;
    }
  }

  /** Each window accepts at most max - 1 requests of its scope. */
  lemma WindowBound(rs: seq<Request>, p: Policy, scope: string, max: int, window: int)
    requires Sensible(p) && p.windowSeconds >= 1 && Clocked(rs) && ScopeLimit(rs, scope, max) && max >= 2
    ensures AcceptedInWindow(rs, p, scope, window) <= max - 1
  {
    WindowIgnoresCleanup(rs, p, scope, window);
    WindowInvariant(WithoutCleanup(rs), p, scope, max, window);
  }

  /* the interval bound is reached */

  function Repeat(scope: string, now: int, max: int, n: nat): seq<Request> {
    seq(n, _ => Request(scope, now, max, {}))
  }

  /** The scope's row stands open in this window after this many attempts. */
  ghost predicate Open(rs: seq<Request>, p: Policy, scope: string, window: int, count: int) {
    scope in RunTable(rs, p)
    && var row := RunTable(rs, p)[scope];
       row.blockedUntil.None? && row.windowStartedAt == window && row.attemptCount == count
  }

  /** One more request, inside the window or after its end, below the limit. */
  lemma OneMoreAccepted(rs: seq<Request>, p: Policy, scope: string, now: int, max: int, window: int, count: int,
                        from: int)
    requires Open(rs, p, scope, window, count) && max >= 2
    requires now < window + p.windowSeconds ==> count + 1 < max
    requires from <= now < from + p.windowSeconds
    ensures var after := rs + [Request(scope, now, max, {})];
            && (if now < window + p.windowSeconds then Open(after, p, scope, window, count + 1)
                else Open(after, p, scope, now, 1))
            && AcceptedFrom(after, p, scope, from) == AcceptedFrom(rs, p, scope, from) + 1
  {
    var after := rs + [Request(scope, now, max, {})];
    assert after[..|rs|] == rs;
    assert RunTable(rs, p) - Collects(RunTable(rs, p), after[|rs|], p) == RunTable(rs, p);
  }

  lemma RepeatGrows(rs: seq<Request>, scope: string, now: int, max: int, n: nat)
    ensures rs + Repeat(scope, now, max, 0) == rs
    ensures rs + Repeat(scope, now, max, n + 1) == rs + Repeat(scope, now, max, n) + [Request(scope, now, max, {})]
  {
  }

  /** Within a window, requests are accepted one by one until the limit. */
  lemma {:induction false} BurstAccepted(rs: seq<Request>, p: Policy, scope: string, now: int, max: int, n: nat,
                                         window: int, count: int, from: int)
    requires Open(rs, p, scope, window, count) && max >= 2
    requires now < window + p.windowSeconds && count + n < max
    requires from <= now < from + p.windowSeconds
    ensures Open(rs + Repeat(scope, now, max, n), p, scope, window, count + n)
    ensures AcceptedFrom(rs + Repeat(scope, now, max, n), p, scope, from) == AcceptedFrom(rs, p, scope, from) + n
    decreases n
  {
    if n == 0 {
      RepeatGrows(rs, scope, now, max, 0);
    } else {
      BurstAccepted(rs, p, scope, now, max, n - 1, window, count, from);
      RepeatGrows(rs, scope, now, max, n - 1);
      OneMoreAccepted(rs + Repeat(scope, now, max, n - 1), p, scope, now, max, window, count + n - 1, from);
    }
  }

  /** One request at 0, then max - 2 just before the window ends and max - 1 just after. */
  function BeforeEnd(p: Policy, scope: string, max: int): seq<Request>
    requires max >= 2
  {
    [Request(scope, 0, max, {})] + Repeat(scope, p.windowSeconds - 1, max, max - 2)
  }

  function Straddle(p: Policy, scope: string, max: int): seq<Request>
    requires max >= 2
  {
    BeforeEnd(p, scope, max) + Repeat(scope, p.windowSeconds, max, max - 1)
  }

  lemma FirstIsOutside(p: Policy, scope: string, max: int, from: int)
    requires p.windowSeconds >= 2 && from > 0
    ensures Open([Request(scope, 0, max, {})], p, scope, 0, 1)
    ensures AcceptedFrom([Request(scope, 0, max, {})], p, scope, from) == 0
  {
    var first := [Request(scope, 0, max, {})];
    assert first[..0] == [];
    assert RunTable([], p) - Collects(RunTable([], p), first[0], p) == map[];
  }

  /** The end of the first window fills it up to its limit. */
  lemma WindowFills(p: Policy, scope: string, max: int)
    requires p.windowSeconds >= 2 && max >= 2
    ensures Open(BeforeEnd(p, scope, max), p, scope, 0, max - 1)
    ensures AcceptedFrom(BeforeEnd(p, scope, max), p, scope, p.windowSeconds - 1) == max - 2
  {
    var from := p.windowSeconds - 1;
    FirstIsOutside(p, scope, max, from);
    BurstAccepted([Request(scope, 0, max, {})], p, scope, from, max, max - 2, 0, 1, from);
  }

  /** A second later the next window opens. */
  lemma WindowReopens(p: Policy, scope: string, max: int)
    requires p.windowSeconds >= 2 && max >= 2
    ensures
      var reopened := BeforeEnd(p, scope, max) + [Request(scope, p.windowSeconds, max, {})];
      && Open(reopened, p, scope, p.windowSeconds, 1)
      && AcceptedFrom(reopened, p, scope, p.windowSeconds - 1) == max - 1
  {
    WindowFills(p, scope, max);
    OneMoreAccepted(BeforeEnd(p, scope, max), p, scope, p.windowSeconds, max, 0, max - 1, p.windowSeconds - 1);
  }

  lemma StraddleSplits(p: Policy, scope: string, max: int)
    requires max >= 2
    ensures
      Straddle(p, scope, max)
      == BeforeEnd(p, scope, max) + [Request(scope, p.windowSeconds, max, {})]
         + Repeat(scope, p.windowSeconds, max, max - 2)
  {
    RepeatSplits(BeforeEnd(p, scope, max), scope, p.windowSeconds, max, max - 2);
  }

  lemma RestAccepted(p: Policy, scope: string, max: int, reopened: seq<Request>)
    requires p.windowSeconds >= 2 && max >= 2
    requires Open(reopened, p, scope, p.windowSeconds, 1)
    requires AcceptedFrom(reopened, p, scope, p.windowSeconds - 1) == max - 1
    ensures
      AcceptedFrom(reopened + Repeat(scope, p.windowSeconds, max, max - 2), p, scope, p.windowSeconds - 1)
        == 2 * max - 3
  {
    BurstAccepted(reopened, p, scope, p.windowSeconds, max, max - 2, p.windowSeconds, 1, p.windowSeconds - 1);
  }

  /** And it is filled in its turn. */
  lemma NextWindowFills(p: Policy, scope: string, max: int)
    requires p.windowSeconds >= 2 && max >= 2
    ensures AcceptedFrom(Straddle(p, scope, max), p, scope, p.windowSeconds - 1) == 2 * max - 3
  {
    WindowReopens(p, scope, max);
    RestAccepted(p, scope, max, BeforeEnd(p, scope, max) + [Request(scope, p.windowSeconds, max, {})]);
    StraddleSplits(p, scope, max);
  }

  lemma RepeatSplits(rs: seq<Request>, scope: string, now: int, max: int, n: nat)
    ensures rs + Repeat(scope, now, max, n + 1) == rs + [Request(scope, now, max, {})] + Repeat(scope, now, max, n)
  {
  }

  lemma StraddleIsOrdered(p: Policy, scope: string, max: int)
    requires p.windowSeconds >= 2 && max >= 2
    ensures Clocked(Straddle(p, scope, max)) && ScopeLimit(Straddle(p, scope, max), scope, max)
  {
    var rs := Straddle(p, scope, max);
    forall i | 0 <= i < |rs|
      ensures rs[i].now == (if i == 0 then 0 else if i < max - 1 then p.windowSeconds - 1 else p.windowSeconds)
      ensures rs[i].maxAttempts == max
    {
    }
  }

  /** The bound 2 * max - 3 is reached, so it cannot be improved. */
  lemma IntervalBoundIsTight(p: Policy, scope: string, max: int)
    requires p.windowSeconds >= 2 && max >= 2
    ensures Clocked(Straddle(p, scope, max)) && ScopeLimit(Straddle(p, scope, max), scope, max)
    ensures AcceptedFrom(Straddle(p, scope, max), p, scope, p.windowSeconds - 1) == 2 * max - 3
  {
    StraddleIsOrdered(p, scope, max);
    NextWindowFills(p, scope, max);
  }
}
