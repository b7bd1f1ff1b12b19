/** Authority-bearing commands: each takes a permit, guards a pooled connection, and runs
    one transaction on it under a single deadline.

    A command is what its future keeps between two waits: the wait it is at and the locals
    that are dropped when it ends. Commands run interleaved over the shared semaphore and
    pool, each may be dropped during any wait, and the database acts on its own. */
module CommandCommit {
  import opened Wrappers

  type Id = nat

  /* ----------------------------------- events --------------------------------- */

  datatype Event =
    | PermitTaken
    | ConnectionCheckedOut
    | BeginIssued
    | RollbackAcknowledged
    | CommitIssued
    | CommitAcknowledged
    | ConnectionReturned
    | ConnectionClosed
    | PermitDropped

  datatype Outcome =
    | Committed
    | Boundary
    | Reject
    | LeaseExpired
    | CommitOutcomeUnknown
    | RequestDropped

  /** What may follow which events: the order in which a command may act. */
  predicate Allowed(past: set<Event>, e: Event) {
    && e !in past && PermitDropped !in past && (past == {} <==> e == PermitTaken)
    && match e
       case PermitTaken => true
       case ConnectionCheckedOut => true
       case BeginIssued => ConnectionCheckedOut in past
       case RollbackAcknowledged => BeginIssued in past && CommitIssued !in past && ConnectionClosed !in past
       case CommitIssued => BeginIssued in past && RollbackAcknowledged !in past && ConnectionClosed !in past
       case CommitAcknowledged => CommitIssued in past && ConnectionClosed !in past
       case ConnectionReturned =>
         && ConnectionCheckedOut in past && ConnectionClosed !in past
         && (CommitAcknowledged in past || RollbackAcknowledged in past)
       case ConnectionClosed =>
         && ConnectionCheckedOut in past && ConnectionReturned !in past
         && CommitAcknowledged !in past && RollbackAcknowledged !in past
       case PermitDropped =>
         ConnectionCheckedOut in past ==> ConnectionReturned in past || ConnectionClosed in past
  }

  function Seen(log: seq<Event>): set<Event> {
    if log == [] then {} else Seen(log[..|log| - 1]) + {log[|log| - 1]}
  }

  /** Every event was allowed by what came before it. */
  predicate LogOk(log: seq<Event>) {
    log == [] || (LogOk(log[..|log| - 1]) && Allowed(Seen(log[..|log| - 1]), log[|log| - 1]))
  }

  lemma LogGrows(log: seq<Event>, e: Event)
    requires LogOk(log) && Allowed(Seen(log), e)
    ensures LogOk(log + [e]) && Seen(log + [e]) == Seen(log) + {e}
  {
    assert (log + [e])[..|log|] == log;
  }

  /* ---------------------------------- commands -------------------------------- */

  /** `Returning` and `Leaving` are no waits: locals are being given back, in this order. */
  datatype Wait = Checkout | Begin | Operation | Rollback | Commit | Close | Returning | Leaving | Done

  /** `permit`, `connection` and `transaction` are the locals, in order of declaration. */
  datatype Command = Command(
    wait: Wait,
    permit: bool,
    connection: Option<Id>,
    transaction: bool,
    outcome: Option<Outcome>,
    log: seq<Event>)

  datatype OperationAnswer = Ack | RefusedBoundary | RefusedReject | RefusedLease

  function Refusal(answer: OperationAnswer): Outcome
    requires answer != Ack
  {
    match answer
    case RefusedBoundary => Boundary
    case RefusedReject => Reject
    case RefusedLease => LeaseExpired
  }

  /** How a wait ends. */
  datatype Wake =
    | Got(connection: Id)
    | Fine
    | Failed
    | Said(answer: OperationAnswer)
    | TimedOut
    | Dropped

  /** A wait that ends without success ends the command like this. */
  function Interrupted(wake: Wake): Outcome {
    if wake.Dropped? then RequestDropped else if wake.TimedOut? then LeaseExpired else Boundary
  }

  /** Everything from here on is dropping locals. */
  function Abandoned(x: Command, outcome: Outcome): Command {
    x.(wait := Leaving, outcome := Some(outcome))
  }

  /** The transaction is over or given up before the connection's fate is settled. */
  function Settling(x: Command, wait: Wait, outcome: Outcome): Command {
    x.(wait := wait, transaction := false, outcome := Some(outcome))
  }

  function Logged(x: Command, e: Event): Command {
    x.(log := x.log + [e])
  }

  /** A command continues to its next wait. A wake that its wait cannot end with changes nothing. */
  function Woken(x: Command, wake: Wake): Command {
    match x.wait
    case Checkout =>
      (match wake
       case Got(k) => Logged(Logged(x, ConnectionCheckedOut), BeginIssued).(wait := Begin, connection := Some(k))
       case Fine => x
       case Said(_) => x
       case _ => Abandoned(x, Interrupted(wake)))
    case Begin =>
      (match wake
       case Got(_) => x
       case Said(_) => x
       case Fine => x.(wait := Operation, transaction := true)
       case _ => Abandoned(x, Interrupted(wake)))
    case Operation =>
      (match wake
       case Said(answer) =>
         if answer.Ack? then Logged(x, CommitIssued).(wait := Commit)
         else x.(wait := Rollback, outcome := Some(Refusal(answer)))
       case TimedOut => Settling(x, Close, LeaseExpired)
       case Dropped => Abandoned(x, RequestDropped)
       case _ => x)
    case Rollback =>
      (match wake
       case Fine => if x.outcome.None? then x else Settling(Logged(x, RollbackAcknowledged), Returning, x.outcome.value)
       case Dropped => Abandoned(x, RequestDropped)
       case Failed => if x.outcome.None? then x else Settling(x, Close, x.outcome.value)
       case TimedOut => if x.outcome.None? then x else Settling(x, Close, x.outcome.value)
       case _ => x)
    case Commit =>
      (match wake
       case Fine => Settling(Logged(x, CommitAcknowledged), Returning, Committed)
       case Dropped => Abandoned(x, RequestDropped)
       case Failed => Settling(x, Close, CommitOutcomeUnknown)
       case TimedOut => Settling(x, Close, CommitOutcomeUnknown)
       case _ => x)
    case Close =>
      // Whatever ends the wait, the connection is closed on drop.
      Logged(x, ConnectionClosed).(wait := Leaving, connection := None,
                                   outcome := if wake.Dropped? then Some(RequestDropped) else x.outcome)
    case _ => x
  }

  /** One local is dropped: the transaction before the guard, which closes what it still
      holds, and the guard before the permit. An acknowledged end releases the guard first. */
  function Unwound(x: Command): Command {
    if x.wait.Returning? then
      Logged(x, ConnectionReturned).(wait := Leaving, connection := None)
    else if x.wait.Leaving? then
      if x.transaction then x.(transaction := false)
      else if x.connection.Some? then Logged(x, ConnectionClosed).(connection := None)
      else Logged(x, PermitDropped).(wait := Done, permit := false)
    else x
  }

  const REFUSALS: set<Outcome> := {Boundary, Reject, LeaseExpired}

  ghost predicate InTransaction(x: Command) {
    && x.connection.Some? && BeginIssued in Seen(x.log)
    && RollbackAcknowledged !in Seen(x.log) && CommitAcknowledged !in Seen(x.log)
  }

  ghost predicate WaitOk(x: Command) {
    match x.wait
    case Checkout => ConnectionCheckedOut !in Seen(x.log) && BeginIssued !in Seen(x.log) && x.outcome.None?
    case Begin => InTransaction(x) && CommitIssued !in Seen(x.log) && x.outcome.None? && !x.transaction
    case Operation => InTransaction(x) && CommitIssued !in Seen(x.log) && x.outcome.None?
    case Rollback => InTransaction(x) && CommitIssued !in Seen(x.log) && x.outcome.Some? && x.outcome.value in REFUSALS
    case Commit => InTransaction(x) && CommitIssued in Seen(x.log) && x.outcome.None?
    case Close => InTransaction(x) && x.outcome.Some? && !x.transaction
    case Returning =>
      && x.connection.Some? && x.outcome.Some? && !x.transaction
      && (CommitAcknowledged in Seen(x.log) || RollbackAcknowledged in Seen(x.log))
    case Leaving =>
      && x.outcome.Some?
      && (x.connection.Some? ==> CommitAcknowledged !in Seen(x.log) && RollbackAcknowledged !in Seen(x.log))
    case Done => x.outcome.Some? && x.connection.None?
  }

  ghost predicate OutcomeFits(log: set<Event>, outcome: Option<Outcome>) {
    && (CommitAcknowledged in log <==> outcome == Some(Committed))
    && (outcome.Some? && outcome.value in REFUSALS ==> CommitIssued !in log)
    && (outcome == Some(CommitOutcomeUnknown) ==> CommitIssued in log)
  }

  ghost predicate CommandOk(x: Command) {
    && LogOk(x.log) && x.log != []
    && (x.permit <==> !x.wait.Done?) && (x.wait.Done? <==> PermitDropped in Seen(x.log))
    && (x.transaction ==> x.connection.Some?)
    && (x.connection.Some? <==>
          ConnectionCheckedOut in Seen(x.log) && ConnectionReturned !in Seen(x.log) && ConnectionClosed !in Seen(x.log))
    && WaitOk(x) && OutcomeFits(Seen(x.log), x.outcome)
  }

  lemma CheckoutOk(x: Command, wake: Wake)
    requires CommandOk(x) && x.wait.Checkout?
    ensures CommandOk(Woken(x, wake))
  {
    if wake.Got? {
      LogGrows(x.log, ConnectionCheckedOut);
      LogGrows(x.log + [ConnectionCheckedOut], BeginIssued);
    }
  }

  lemma OperationOk(x: Command, wake: Wake)
    requires CommandOk(x) && x.wait.Operation?
    ensures CommandOk(Woken(x, wake))
  {
    if wake == Said(Ack) {
      LogGrows(x.log, CommitIssued);
    }
  }

  lemma RollbackOk(x: Command, wake: Wake)
    requires CommandOk(x) && x.wait.Rollback?
    ensures CommandOk(Woken(x, wake))
  {
    if wake.Fine? {
      LogGrows(x.log, RollbackAcknowledged);
    }
  }

  lemma CommitOk(x: Command, wake: Wake)
    requires CommandOk(x) && x.wait.Commit?
    ensures CommandOk(Woken(x, wake))
  {
    if wake.Fine? {
      LogGrows(x.log, CommitAcknowledged);
    }
  }

  lemma CloseOk(x: Command, wake: Wake)
    requires CommandOk(x) && x.wait.Close?
    ensures CommandOk(Woken(x, wake))
  {
    LogGrows(x.log, ConnectionClosed);
  }

  lemma WokenOk(x: Command, wake: Wake)
    requires CommandOk(x)
    ensures CommandOk(Woken(x, wake))
  {
    match x.wait {
      case Checkout => CheckoutOk(x, wake);
      case Operation => OperationOk(x, wake);
      case Rollback => RollbackOk(x, wake);
      case Commit => CommitOk(x, wake);
      case Close => CloseOk(x, wake);
      case _ =>
    }
  }

  /** What a wake does to the locals that others can see. */
  lemma WokenLocals(x: Command, wake: Wake)
    ensures
      var y := Woken(x, wake);
      && y.permit == x.permit
      && (y.connection in {x.connection, None}
          || (x.wait.Checkout? && wake.Got? && y.connection == Some(wake.connection)))
      && (y.wait.Returning? && !x.wait.Returning? ==>
            (x.wait.Rollback? || x.wait.Commit?) && wake.Fine? && y.connection == x.connection)
      && (x.wait.Returning? ==> y == x)
  {
  }

  lemma UnwoundOk(x: Command)
    requires CommandOk(x)
    ensures CommandOk(Unwound(x))
  {
    var y := Unwound(x);
    if y.log != x.log {
      LogGrows(x.log, y.log[|x.log|]);
    }
  }

  /* -------------------------- the semaphore and the pool ---------------------- */

  /** `idle` are the pooled connections and `known` all there ever were. `sent` are the
      connections with a BEGIN that the database has not processed, and `live` those on
      which it has a transaction open. */
  datatype State = State(
    slots: nat,
    available: nat,
    commands: map<Id, Command>,
    idle: set<Id>,
    known: set<Id>,
    sent: set<Id>,
    live: set<Id>)

  datatype Step =
    | Start(c: Id)
    | Wakes(c: Id, wake: Wake)
    | Drops(c: Id)
    | PoolOpens(k: Id)
    | PoolCloses(k: Id)
    | ServerBegins(k: Id)
    | ServerEnds(k: Id)
    | ServerLoses(k: Id)

  /** What an acknowledgement means: the BEGIN was processed, and the COMMIT or ROLLBACK
      ended the transaction. A checkout is answered with a pooled connection. */
  predicate CanWake(s: State, x: Command, wake: Wake) {
    && (x.wait.Checkout? && wake.Got? ==> wake.connection in s.idle)
    && (x.wait.Begin? && wake.Fine? && x.connection.Some? ==> x.connection.value !in s.sent)
    && ((x.wait.Rollback? || x.wait.Commit?) && wake.Fine? && x.connection.Some? ==>
          x.connection.value !in s.sent && x.connection.value !in s.live)
  }

  function Apply(s: State, step: Step): State {
    match step
    case Start(c) =>
      if c in s.commands || s.available == 0 then s
      else s.(available := s.available - 1,
           commands := s.commands[c := Command(Checkout, true, None, false, None, [PermitTaken])])
    case Wakes(c, wake) =>
      if c !in s.commands || !CanWake(s, s.commands[c], wake) then s
      else if s.commands[c].wait.Checkout? && wake.Got? then
        s.(commands := s.commands[c := Woken(s.commands[c], wake)],
        idle := s.idle - {wake.connection}, sent := s.sent + {wake.connection})
      else s.(commands := s.commands[c := Woken(s.commands[c], wake)])
    case Drops(c) =>
      if c !in s.commands then s
      else
        var x := s.commands[c];
        var y := Unwound(x);
        s.(commands := s.commands[c := y],
        idle := if x.wait.Returning? && x.connection.Some? then s.idle + {x.connection.value} else s.idle,
        available := if x.permit && !y.permit then s.available + 1 else s.available)
    case PoolOpens(k) => if k in s.known then s else s.(known := s.known + {k}, idle := s.idle + {k})
    case PoolCloses(k) => s.(idle := s.idle - {k})
    case ServerBegins(k) => if k in s.sent then s.(sent := s.sent - {k}, live := s.live + {k}) else s
    case ServerEnds(k) => s.(live := s.live - {k})
    case ServerLoses(k) => s.(sent := s.sent - {k})
  }

  function Run(s: State, steps: seq<Step>): State {
    if steps == [] then s else Apply(Run(s, steps[..|steps| - 1]), steps[|steps| - 1])
  }

  function Init(slots: nat): State {
    State(slots, slots, map[], {}, {}, {}, {})
  }

  function Holders(commands: map<Id, Command>): set<Id> {
    set c | c in commands && commands[c].permit
  }

  ghost predicate CommandsOk(s: State) {
    forall c | c in s.commands :: CommandOk(s.commands[c])
  }

  ghost predicate PermitsAddUp(s: State) {
    s.available + |Holders(s.commands)| == s.slots
  }

  ghost predicate ConnectionsOk(s: State) {
    && (forall c, d | c in s.commands && d in s.commands && s.commands[c].connection.Some?
                      && s.commands[c].connection == s.commands[d].connection :: c == d)
    && (forall c | c in s.commands && s.commands[c].connection.Some? ::
          s.commands[c].connection.value in s.known && s.commands[c].connection.value !in s.idle)
    && (forall c | c in s.commands && s.commands[c].wait.Returning? && s.commands[c].connection.Some? ::
          s.commands[c].connection.value !in s.sent + s.live)
    && s.idle <= s.known && s.sent <= s.known && s.live <= s.known && s.idle !! (s.sent + s.live)
  }

  ghost predicate Inv(s: State) {
    CommandsOk(s) && PermitsAddUp(s) && ConnectionsOk(s)
  }

  lemma HoldersAfter(commands: map<Id, Command>, c: Id, x: Command)
    ensures
      var after := commands[c := x];
      |Holders(after)| == |Holders(commands)|
                          + (if x.permit then 1 else 0) - (if c in commands && commands[c].permit then 1 else 0)
  {
    var rest := Holders(commands) - {c};
    assert Holders(commands) == if c in commands && commands[c].permit then rest + {c} else rest;
    assert Holders(commands[c := x]) == if x.permit then rest + {c} else rest;
  }

  lemma StartKeeps(s: State, c: Id)
    requires Inv(s)
    ensures Inv(Apply(s, Start(c)))
  {
    var t := Apply(s, Start(c));
    if t != s {
      HoldersAfter(s.commands, c, t.commands[c]);
      LogGrows([], PermitTaken);
      assert [] + [PermitTaken] == [PermitTaken];
      assert CommandOk(t.commands[c]);
      assert ConnectionsOk(t);
    }
  }

  /** One command replaced by one whose connection is its own, none, or fresh from the pool. */
  lemma ReplaceKeepsConnections(s: State, t: State, c: Id)
    requires ConnectionsOk(s) && c in s.commands && c in t.commands
    requires t.commands == s.commands[c := t.commands[c]]
    requires t.known == s.known && t.live == s.live
    requires
      var (before, after) := (s.commands[c].connection, t.commands[c].connection);
      || (after in {before, None} && t.idle == s.idle && t.sent == s.sent)
      || (after.Some? && after.value in s.idle && t.idle == s.idle - {after.value} && t.sent == s.sent + {after.value})
      || (&& s.commands[c].wait.Returning? && before.Some? && after.None?
          && t.idle == s.idle + {before.value} && t.sent == s.sent)
    requires t.commands[c].wait.Returning? && t.commands[c].connection.Some? ==>
               t.commands[c].connection.value !in t.sent + t.live
    ensures ConnectionsOk(t)
  {
  }

  lemma WakeKeeps(s: State, c: Id, wake: Wake)
    requires Inv(s)
    ensures Inv(Apply(s, Wakes(c, wake)))
  {
    var t := Apply(s, Wakes(c, wake));
    if c in s.commands && CanWake(s, s.commands[c], wake) {
      WokenOk(s.commands[c], wake);
      WokenLocals(s.commands[c], wake);
      HoldersAfter(s.commands, c, t.commands[c]);
      ReplaceKeepsConnections(s, t, c);
    }
  }

  lemma DropKeeps(s: State, c: Id)
    requires Inv(s)
    ensures Inv(Apply(s, Drops(c)))
  {
    var t := Apply(s, Drops(c));
    if c in s.commands {
      UnwoundOk(s.commands[c]);
      HoldersAfter(s.commands, c, t.commands[c]);
      ReplaceKeepsConnections(s, t, c);
    }
  }

  /** The pool and the database act on their own only where no command looks. */
  lemma EnvironmentKeeps(s: State, step: Step)
    requires ConnectionsOk(s) && !step.Start? && !step.Wakes? && !step.Drops?
    ensures ConnectionsOk(Apply(s, step))
    ensures Apply(s, step).commands == s.commands && Apply(s, step).available == s.available
  {
  }

  lemma SlotsStay(s: State, step: Step)
    ensures Apply(s, step).slots == s.slots
  {
  }

  lemma StepKeeps(s: State, step: Step)
    requires Inv(s)
    ensures Inv(Apply(s, step)) && Apply(s, step).slots == s.slots
  {
    SlotsStay(s, step);
    match step {
      case Start(c) => StartKeeps(s, c);
      case Wakes(c, wake) => WakeKeeps(s, c, wake);
      case Drops(c) => DropKeeps(s, c);
      case _ => EnvironmentKeeps(s, step);
    }
  }

  lemma {:induction false} Reachable(slots: nat, steps: seq<Step>)
    ensures Inv(Run(Init(slots), steps)) && Run(Init(slots), steps).slots == slots
    decreases |steps|
  {
    if steps == [] {
      assert Holders(map[]) == {};
    } else {
      var before := Run(Init(slots), steps[..|steps| - 1]);
      Reachable(slots, steps[..|steps| - 1]);
      StepKeeps(before, steps[|steps| - 1]);
    }
  }

  /* --------------------------------- theorems --------------------------------- */

  /** The connections that commands have checked out. */
  function CheckedOut(commands: map<Id, Command>, owners: set<Id>): set<Id> {
    set c | c in owners && c in commands && commands[c].connection.Some? :: commands[c].connection.value
  }

  lemma {:induction false} CheckedOutSize(commands: map<Id, Command>, owners: set<Id>)
    ensures |CheckedOut(commands, owners)| <= |owners|
    decreases |owners|
  {
    if owners == {} {
      assert CheckedOut(commands, owners) == {};
    } else {
      var c :| c in owners;
      CheckedOutSize(commands, owners - {c});
      var rest := CheckedOut(commands, owners - {c});
      if c in commands && commands[c].connection.Some? {
        assert CheckedOut(commands, owners) == rest + {commands[c].connection.value};
      } else {
        assert CheckedOut(commands, owners) == rest;
      }
    }
  }

  /** In every interleaving: no more connections checked out by commands than permits held,
      no more permits held than slots, and every permit that is not held is available. */
  lemma ConnectionsNeedPermits(slots: nat, steps: seq<Step>)
    ensures
      var s := Run(Init(slots), steps);
      && |CheckedOut(s.commands, s.commands.Keys)| <= |Holders(s.commands)| <= slots
      && s.available + |Holders(s.commands)| == slots
      && forall c | c in s.commands && s.commands[c].connection.Some? :: s.commands[c].permit
  {
    Reachable(slots, steps);
    var s := Run(Init(slots), steps);
    forall c | c in s.commands && s.commands[c].connection.Some?
      ensures s.commands[c].permit
    {
      assert CommandOk(s.commands[c]);
    }
    CheckedOutSize(s.commands, Holders(s.commands));
    assert CheckedOut(s.commands, s.commands.Keys) == CheckedOut(s.commands, Holders(s.commands));
  }

  /** In every interleaving a pooled connection has neither an open transaction nor a BEGIN
      on its way, no command holds it, and no two commands hold one connection. */
  lemma PoolIsClean(slots: nat, steps: seq<Step>)
    ensures
      var s := Run(Init(slots), steps);
      && (forall k | k in s.idle ::
            k !in s.live && k !in s.sent && k !in CheckedOut(s.commands, s.commands.Keys))
      && (forall c, d | c in s.commands && d in s.commands && s.commands[c].connection.Some?
                        && s.commands[c].connection == s.commands[d].connection :: c == d)
  {
    Reachable(slots, steps);
  }

  /** Every occurrence of `later` comes after one of `earlier`. */
  predicate Follows(log: seq<Event>, later: Event, earlier: Event) {
    forall j | 0 <= j < |log| && log[j] == later :: earlier in log[..j]
  }

  predicate NothingTwice(log: seq<Event>) {
    forall i, j | 0 <= i < j < |log| :: log[i] != log[j]
  }

  /** A refused or expired command never issued its commit; a command that succeeded had
      its commit acknowledged, and an unknown one issued it and heard nothing. */
  predicate OutcomeIsHonest(log: seq<Event>, outcome: Outcome) {
    && (outcome in {Boundary, Reject, LeaseExpired} ==> CommitIssued !in log)
    && (outcome == Committed <==> CommitAcknowledged in log)
    && (outcome == CommitOutcomeUnknown ==> CommitIssued in log)
    && Follows(log, CommitAcknowledged, CommitIssued)
    && Follows(log, CommitIssued, BeginIssued)
  }

  /** A checked-out connection ends in exactly one way. It re-enters the pool only after
      the database acknowledged the end of its transaction, and is closed otherwise. */
  predicate ConnectionIsContained(log: seq<Event>) {
    && (ConnectionCheckedOut in log <==> ConnectionReturned in log || ConnectionClosed in log)
    && !(ConnectionReturned in log && ConnectionClosed in log)
    && (forall j | 0 <= j < |log| && log[j] == ConnectionReturned ::
          CommitAcknowledged in log[..j] || RollbackAcknowledged in log[..j])
    && (CommitAcknowledged in log || RollbackAcknowledged in log ==> ConnectionReturned in log)
    && !(RollbackAcknowledged in log && CommitIssued in log)
    && Follows(log, BeginIssued, ConnectionCheckedOut)
    && Follows(log, ConnectionReturned, ConnectionCheckedOut)
    && Follows(log, ConnectionClosed, ConnectionCheckedOut)
  }

  /** The permit is taken before and dropped after everything else. */
  predicate PermitOutlivesConnection(log: seq<Event>) {
    |log| > 0 ==> |log| > 1 && log[0] == PermitTaken && log[|log| - 1] == PermitDropped
  }

  predicate Sound(log: seq<Event>, outcome: Outcome) {
    && NothingTwice(log)
    && OutcomeIsHonest(log, outcome)
    && ConnectionIsContained(log)
    && PermitOutlivesConnection(log)
  }

  /** What the order of events says about which of them can be in one log. */
  predicate Coherent(seen: set<Event>) {
    && (BeginIssued in seen ==> ConnectionCheckedOut in seen)
    && (CommitIssued in seen || RollbackAcknowledged in seen ==> BeginIssued in seen)
    && (CommitAcknowledged in seen ==> CommitIssued in seen)
    && (ConnectionReturned in seen || ConnectionClosed in seen ==> ConnectionCheckedOut in seen)
    && !(CommitIssued in seen && RollbackAcknowledged in seen)
    && (ConnectionClosed in seen ==>
          ConnectionReturned !in seen && CommitAcknowledged !in seen && RollbackAcknowledged !in seen)
    && (PermitDropped in seen && ConnectionCheckedOut in seen ==>
          ConnectionReturned in seen || ConnectionClosed in seen)
  }

  lemma {:induction false} CoherentLog(log: seq<Event>)
    requires LogOk(log)
    ensures Coherent(Seen(log))
    ensures PermitDropped in Seen(log) ==> log[|log| - 1] == PermitDropped
    ensures log != [] ==> log[0] == PermitTaken && PermitTaken in Seen(log)
    decreases |log|
  {
    if log != [] {
      CoherentLog(log[..|log| - 1]);
      if |log| > 1 {
        assert Seen(log[..|log| - 1]) != {};
      }
    }
  }

  lemma {:induction false} SeenIsIn(log: seq<Event>, e: Event)
    ensures e in Seen(log) <==> e in log
    decreases |log|
  {
    if log != [] {
      SeenIsIn(log[..|log| - 1], e);
      assert log == log[..|log| - 1] + [log[|log| - 1]];
    }
  }

  lemma {:induction false} AllowedAt(log: seq<Event>, j: nat)
    requires LogOk(log) && j < |log|
    ensures Allowed(Seen(log[..j]), log[j])
    ensures forall e :: e in Seen(log[..j]) <==> e in log[..j]
    decreases |log|
  {
    forall e
      ensures e in Seen(log[..j]) <==> e in log[..j]
    {
      SeenIsIn(log[..j], e);
    }
    if j < |log| - 1 {
      assert log[..|log| - 1][..j] == log[..j];
      AllowedAt(log[..|log| - 1], j);
    }
  }

  lemma Precedents(log: seq<Event>, j: nat)
    requires LogOk(log) && j < |log|
    ensures log[j] !in log[..j]
    ensures
      match log[j]
      case BeginIssued => ConnectionCheckedOut in log[..j]
      case CommitIssued => BeginIssued in log[..j]
      case CommitAcknowledged => CommitIssued in log[..j]
      case ConnectionReturned =>
        ConnectionCheckedOut in log[..j] && (CommitAcknowledged in log[..j] || RollbackAcknowledged in log[..j])
      case ConnectionClosed => ConnectionCheckedOut in log[..j]
      case _ => true
  {
    AllowedAt(log, j);
  }

  lemma OrderedLog(log: seq<Event>)
    requires LogOk(log)
    ensures NothingTwice(log)
    ensures Follows(log, CommitAcknowledged, CommitIssued) && Follows(log, CommitIssued, BeginIssued)
    ensures Follows(log, BeginIssued, ConnectionCheckedOut) && Follows(log, ConnectionReturned, ConnectionCheckedOut)
    ensures Follows(log, ConnectionClosed, ConnectionCheckedOut)
    ensures forall j | 0 <= j < |log| && log[j] == ConnectionReturned ::
              CommitAcknowledged in log[..j] || RollbackAcknowledged in log[..j]
  {
    forall j | 0 <= j < |log|
      ensures log[j] == CommitAcknowledged ==> CommitIssued in log[..j]
      ensures log[j] == CommitIssued ==> BeginIssued in log[..j]
      ensures log[j] in {BeginIssued, ConnectionReturned, ConnectionClosed} ==> ConnectionCheckedOut in log[..j]
      ensures log[j] == ConnectionReturned ==> CommitAcknowledged in log[..j] || RollbackAcknowledged in log[..j]
    {
      Precedents(log, j);
    }
    forall i, j | 0 <= i < j < |log|
      ensures log[i] != log[j]
    {
      Precedents(log, j);
      assert log[..j][i] == log[i];
    }
  }

  lemma FinishedConnection(log: seq<Event>)
    requires LogOk(log) && PermitDropped in Seen(log)
    ensures ConnectionIsContained(log) && PermitOutlivesConnection(log)
  {
    CoherentLog(log);
    OrderedLog(log);
    forall e
      ensures e in Seen(log) <==> e in log
    {
      SeenIsIn(log, e);
    }
  }

  lemma HonestLog(log: seq<Event>, outcome: Outcome)
    requires LogOk(log) && OutcomeFits(Seen(log), Some(outcome))
    ensures OutcomeIsHonest(log, outcome)
  {
    OrderedLog(log);
    SeenIsIn(log, CommitIssued);
    SeenIsIn(log, CommitAcknowledged);
  }

  lemma FinishedIsSound(x: Command)
    requires CommandOk(x) && x.wait.Done?
    ensures x.outcome.Some? && Sound(x.log, x.outcome.value)
  {
    FinishedConnection(x.log);
    OrderedLog(x.log);
    HonestLog(x.log, x.outcome.value);
  }

  /** In every interleaving the log of a finished command is sound for its outcome. */
  lemma EveryFinishedCommandIsSound(slots: nat, steps: seq<Step>, c: Id)
    requires var s := Run(Init(slots), steps); c in s.commands && s.commands[c].wait.Done?
    ensures
      var x := Run(Init(slots), steps).commands[c];
      x.outcome.Some? && Sound(x.log, x.outcome.value)
  {
    Reachable(slots, steps);
    FinishedIsSound(Run(Init(slots), steps).commands[c]);
  }
}
