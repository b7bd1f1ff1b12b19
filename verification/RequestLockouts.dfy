/** How long the limiter refuses a scope: a refusal of an open scope starts a lockout, which
    lasts its whole length and not a second longer. */
module RequestLockouts {
  import opened Wrappers
  import opened RequestLimiter

  ghost function TableBefore(rs: seq<Request>, p: Policy, i: nat): Table
    requires i < |rs|
  {
    RunTable(rs[..i], p)
  }

  /** The answer to the i-th request of a run. */
  ghost function DecisionAt(rs: seq<Request>, p: Policy, i: nat): Decision
    requires i < |rs|
  {
    Serve(TableBefore(rs, p, i), rs[i], p).1
  }

  ghost predicate BlockedAt(rs: seq<Request>, p: Policy, i: nat)
    requires i < |rs|
  {
    rs[i].scope in TableBefore(rs, p, i) && Blocked(TableBefore(rs, p, i)[rs[i].scope], rs[i].now)
  }

  /** A request of a scope that is not locked out is refused, which locks it out. */
  ghost predicate LocksOut(rs: seq<Request>, p: Policy, i: nat)
    requires i < |rs|
  {
    !BlockedAt(rs, p, i) && DecisionAt(rs, p, i).Limited?
  }

  lemma TableAfter(rs: seq<Request>, p: Policy, i: nat)
    requires i < |rs|
    ensures RunTable(rs[..i + 1], p) == Serve(TableBefore(rs, p, i), rs[i], p).0
  {
    assert rs[..i + 1][..i] == rs[..i];
  }

  /** The row that a lockout leaves. */
  lemma LockedRow(rs: seq<Request>, p: Policy, i: nat)
    requires i < |rs| && LocksOut(rs, p, i)
    ensures
      var t := RunTable(rs[..i + 1], p);
      && rs[i].scope in t && t[rs[i].scope].blockedUntil == Some(rs[i].now + p.lockoutSeconds)
      && t[rs[i].scope].updatedAt == rs[i].now
  {
    TableAfter(rs, p, i);
  }

  lemma BlockedRowStays(t: Table, r: Request, p: Policy, scope: string)
    requires scope in t && Blocked(t[scope], r.now)
    ensures scope in Serve(t, r, p).0 && Serve(t, r, p).0[scope] == t[scope]
  {
  }

  /** While the lockout lasts, requests do not touch the row and no cleanup reaches it. */
  lemma {:induction false} LockoutStands(rs: seq<Request>, p: Policy, i: nat, j: nat)
    requires Clocked(rs) && i < j <= |rs| && LocksOut(rs, p, i)
    requires forall k | i < k < j :: rs[k].now < rs[i].now + p.lockoutSeconds
    ensures
      var (t, locked) := (RunTable(rs[..j], p), RunTable(rs[..i + 1], p));
      rs[i].scope in t && rs[i].scope in locked && t[rs[i].scope] == locked[rs[i].scope]
    decreases j
  {
    LockedRow(rs, p, i);
    if j > i + 1 {
      LockoutStands(rs, p, i, j - 1);
      TableAfter(rs, p, j - 1);
      BlockedRowStays(RunTable(rs[..j - 1], p), rs[j - 1], p, rs[i].scope);
    }
  }

  /** A refusal of an open scope says for how long, and until then every request of the scope
      is refused for exactly the time that remains. */
  lemma RefusalLasts(rs: seq<Request>, p: Policy, i: nat, j: nat)
    requires Clocked(rs) && i <= j < |rs| && LocksOut(rs, p, i)
    requires rs[j].scope == rs[i].scope && rs[j].now < rs[i].now + p.lockoutSeconds
    ensures DecisionAt(rs, p, j) == Limited(rs[i].now + p.lockoutSeconds - rs[j].now)
  {
    LockedRow(rs, p, i);
    TableAfter(rs, p, i);
    if i < j {
      assert forall k | i < k < j :: rs[k].now <= rs[j].now;
      LockoutStands(rs, p, i, j);
    }
  }

  /* -------------------------------- other scopes ------------------------------ */

  /** What a request does to the other scopes: nothing while its own is locked out, and
      otherwise exactly the rows its cleanup reached go that were last written before the
      retention and are not locked out. */
  lemma OtherScopesAreKept(t: Table, r: Request, p: Policy, scope: string)
    requires scope in t && scope != r.scope
    ensures
      var (row, after) := (t[scope], Serve(t, r, p).0);
      && (scope in after ==> after[scope] == row)
      && (scope !in after <==>
            && !(r.scope in t && Blocked(t[r.scope], r.now))
            && scope in r.collected && row.updatedAt + p.retentionSeconds < r.now
            && (row.blockedUntil.None? || row.blockedUntil.value <= r.now))
  {
  }

  /* -------------------------------- reopening --------------------------------- */

  /** The row of the lockout, untouched by requests of other scopes, or gone once it had gone stale. */
  ghost predicate StillLocked(t: Table, scope: string, locked: Row, now: int, p: Policy) {
    if scope in t then t[scope] == locked else locked.updatedAt + p.retentionSeconds < now
  }

  lemma OthersLeaveLocked(t: Table, r: Request, p: Policy, scope: string, locked: Row, before: int)
    requires r.scope != scope && before <= r.now && StillLocked(t, scope, locked, before, p)
    ensures StillLocked(Serve(t, r, p).0, scope, locked, r.now, p)
  {
    if scope in t {
      OtherScopesAreKept(t, r, p, scope);
    }
  }

  lemma {:induction false} LockoutOrGone(rs: seq<Request>, p: Policy, i: nat, j: nat)
    requires Clocked(rs) && i < j <= |rs| && LocksOut(rs, p, i)
    requires forall k | i < k < j && rs[k].scope == rs[i].scope :: rs[k].now < rs[i].now + p.lockoutSeconds
    ensures rs[i].scope in RunTable(rs[..i + 1], p)
    ensures StillLocked(RunTable(rs[..j], p), rs[i].scope, RunTable(rs[..i + 1], p)[rs[i].scope], rs[j - 1].now, p)
    decreases j
  {
    LockedRow(rs, p, i);
    if j > i + 1 {
      var locked := RunTable(rs[..i + 1], p)[rs[i].scope];
      LockoutOrGone(rs, p, i, j - 1);
      TableAfter(rs, p, j - 1);
      if rs[j - 1].scope == rs[i].scope {
        assert forall k | i < k < j :: rs[k].now <= rs[j - 1].now;
        LockoutStands(rs, p, i, j);
      } else {
        OthersLeaveLocked(RunTable(rs[..j - 1], p), rs[j - 1], p, rs[i].scope, locked, rs[j - 2].now);
      }
    }
  }

  /** A window starts no later than its row was last written. */
  lemma {:induction false} WindowsStartBefore(rs: seq<Request>, p: Policy, scope: string, now: int)
    requires Clocked(rs) && (rs != [] ==> rs[|rs| - 1].now <= now)
    ensures scope in RunTable(rs, p) ==>
              RunTable(rs, p)[scope].windowStartedAt <= RunTable(rs, p)[scope].updatedAt <= now
    decreases |rs|
  {
    if rs != [] {
      WindowsStartBefore(rs[..|rs| - 1], p, scope, rs[|rs| - 1].now);
    }
  }

  /** The scope's first request at or after the end of a lockout is accepted exactly if the
      window that the lockout began in is over by then. */
  lemma ReopensExactly(rs: seq<Request>, p: Policy, max: int, i: nat, j: nat)
    requires Sensible(p) && Clocked(rs) && i < j < |rs| && LocksOut(rs, p, i)
    requires ScopeLimit(rs, rs[i].scope, max) && max >= 2
    requires rs[j].scope == rs[i].scope && rs[i].now + p.lockoutSeconds <= rs[j].now
    requires forall k | i < k < j && rs[k].scope == rs[i].scope :: rs[k].now < rs[i].now + p.lockoutSeconds
    ensures rs[i].scope in RunTable(rs[..i + 1], p)
    ensures DecisionAt(rs, p, j).Allowed? <==>
              RunTable(rs[..i + 1], p)[rs[i].scope].windowStartedAt + p.windowSeconds <= rs[j].now
  {
    var scope := rs[i].scope;
    LockedRow(rs, p, i);
    LockoutOrGone(rs, p, i, j);
    WindowsStartBefore(rs[..i + 1], p, scope, rs[i].now);
    LimitReached(rs, p, max, i);
    assert rs[j - 1].now <= rs[j].now;
  }

  /** A lockout leaves the attempts of its window used up. */
  lemma LimitReached(rs: seq<Request>, p: Policy, max: int, i: nat)
    requires i < |rs| && LocksOut(rs, p, i) && rs[i].maxAttempts == max
    ensures rs[i].scope in RunTable(rs[..i + 1], p) && RunTable(rs[..i + 1], p)[rs[i].scope].attemptCount >= max
  {
    TableAfter(rs, p, i);
  }

  /** With a lockout at least as long as the window, the first request after it is always accepted. */
  lemma ReopensAfterLockout(rs: seq<Request>, p: Policy, max: int, i: nat, j: nat)
    requires Sensible(p) && p.lockoutSeconds >= p.windowSeconds
    requires Clocked(rs) && i < j < |rs| && ScopeLimit(rs, rs[i].scope, max) && max >= 2 && LocksOut(rs, p, i)
    requires rs[j].scope == rs[i].scope && rs[i].now + p.lockoutSeconds <= rs[j].now
    requires forall k | i < k < j && rs[k].scope == rs[i].scope :: rs[k].now < rs[i].now + p.lockoutSeconds
    ensures DecisionAt(rs, p, j).Allowed?
  {
    LockedRow(rs, p, i);
    WindowsStartBefore(rs[..i + 1], p, rs[i].scope, rs[i].now);
    ReopensExactly(rs, p, max, i, j);
  }

  /* ------------------------------ when it locks out --------------------------- */

  /** A row's window has accepted its attempts, up to one short of the limit. */
  lemma RowsCountAccepted(rs: seq<Request>, p: Policy, scope: string, max: int)
    requires Sensible(p) && p.windowSeconds >= 1 && Clocked(rs) && ScopeLimit(rs, scope, max) && max >= 2
    ensures
      scope in RunTable(rs, p) ==>
        var row := RunTable(rs, p)[scope];
        row.windowStartedAt <= row.updatedAt && AcceptedInWindow(rs, p, scope, row.windowStartedAt) == Used(row, max)
  {
    if rs != [] && scope in RunTable(rs, p) {
      var window := RunTable(rs, p)[scope].windowStartedAt;
      CleanupKeepsRow(rs, scope, p, rs[|rs| - 1].now);
      WindowIgnoresCleanup(rs, p, scope, window);
      WindowInvariant(WithoutCleanup(rs), p, scope, max, window);
      WindowsStartBefore(rs, p, scope, rs[|rs| - 1].now);
    }
  }

  /** The last request of a run locks its scope out exactly if its window is still open and
      has accepted all that it may. */
  lemma LocksOutExactly(rs: seq<Request>, p: Policy, max: int)
    requires rs != [] && Sensible(p) && p.windowSeconds >= 1 && Clocked(rs)
    requires ScopeLimit(rs, rs[|rs| - 1].scope, max) && max >= 2
    ensures
      var (prefix, r) := (rs[..|rs| - 1], rs[|rs| - 1]);
      LocksOut(rs, p, |rs| - 1) <==>
        && r.scope in RunTable(prefix, p)
        && var row := RunTable(prefix, p)[r.scope];
           && !Blocked(row, r.now) && r.now < row.windowStartedAt + p.windowSeconds
           && AcceptedInWindow(prefix, p, r.scope, row.windowStartedAt) == max - 1
  {
    var (prefix, r) := (rs[..|rs| - 1], rs[|rs| - 1]);
    RowsCountAccepted(prefix, p, r.scope, max);
  }
}
