/** One command from start to end, as it runs: statements on the shared semaphore and pool
    and on the command's own locals, with the time every wait takes. Each statement is one
    step of `CommandCommit`. */
module CommandExecution {
  import opened Wrappers
  import opened CommandCommit

  /** Milliseconds. `CUTOFF` is how long a session cutoff waits for identity locks. */
  const LEASE: nat := 5000
  const CLEANUP: nat := 1000
  const CUTOFF: nat := 7000

  /** What a future does when it is awaited: it answers, it never does, or the request
      that awaits it is dropped first. */
  datatype Future<T> = Ready(value: T, after: nat) | Never | DroppedAfter(after: nat)

  datatype Awaited<T> = Answered(value: T, at: nat) | Elapsed(at: nat) | Cancelled(at: nat)

  datatype Script = Script(
    checkout: Future<bool>,
    begin: Future<bool>,
    operation: Future<OperationAnswer>,
    rollback: Future<bool>,
    commit: Future<bool>,
    close: Future<bool>)

  /** Whatever happens first, the deadline at the latest. */
  function TimeoutAt<T>(future: Future<T>, now: nat, deadline: nat): (awaited: Awaited<T>)
    requires now <= deadline
    ensures now <= awaited.at <= deadline
    ensures awaited.Answered? <==> future.Ready? && now + future.after <= deadline
    ensures awaited.Cancelled? <==> future.DroppedAfter? && now + future.after <= deadline
    ensures awaited.Answered? ==> awaited.value == future.value && awaited.at == now + future.after
  {
    match future
    case Ready(value, after) => if now + after <= deadline then Answered(value, now + after) else Elapsed(deadline)
    case Never => Elapsed(deadline)
    case DroppedAfter(after) => if now + after <= deadline then Cancelled(now + after) else Elapsed(deadline)
  }

  function WakeOf(awaited: Awaited<bool>): Wake {
    match awaited
    case Answered(ok, _) => if ok then Fine else Failed
    case Elapsed(_) => TimedOut
    case Cancelled(_) => Dropped
  }

  /* -------------------------------- what decides ------------------------------ */

  predicate Answers<T(==)>(future: Future<T>, value: T) {
    future.Ready? && future.value == value
  }

  /** The operation is reached and gives `answer` within the lease. */
  predicate OperationAnswers(s: Script, answer: OperationAnswer) {
    && Answers(s.checkout, true) && Answers(s.begin, true) && Answers(s.operation, answer)
    && s.checkout.after + s.begin.after + s.operation.after <= LEASE
  }

  /** Every stage succeeds, and together they fit in one lease. */
  predicate FitsTheLease(s: Script) {
    && OperationAnswers(s, Ack) && Answers(s.commit, true)
    && s.checkout.after + s.begin.after + s.operation.after + s.commit.after <= LEASE
  }

  predicate MayBeDropped(s: Script) {
    || s.checkout.DroppedAfter? || s.begin.DroppedAfter? || s.operation.DroppedAfter?
    || s.rollback.DroppedAfter? || s.commit.DroppedAfter? || s.close.DroppedAfter?
  }

  /* ------------------------------ what it comes to ---------------------------- */

  /** The request is dropped during the wait, not later than its deadline. */
  predicate DroppedBy<T>(future: Future<T>, now: nat, deadline: nat) {
    future.DroppedAfter? && now + future.after <= deadline
  }

  /** Neither an answer nor a drop comes by the deadline. */
  predicate RunsOut<T>(future: Future<T>, now: nat, deadline: nat) {
    future.Never? || now + future.after > deadline
  }

  /** A connection that is not released is closed, and the request may be dropped during that. */
  function AfterClosing(close: Future<bool>, outcome: Outcome): Outcome {
    if DroppedBy(close, 0, CLEANUP) then RequestDropped else outcome
  }

  /** What a COMMIT or ROLLBACK comes to: released when it is acknowledged in time, closed otherwise. */
  function EndFate(future: Future<bool>, close: Future<bool>, now: nat, deadline: nat, acknowledged: Outcome,
                   otherwise: Outcome): Outcome
  {
    if DroppedBy(future, now, deadline) then RequestDropped
    else if Answers(future, true) && now + future.after <= deadline then acknowledged
    else AfterClosing(close, otherwise)
  }

  function OperationFate(s: Script, now: nat, deadline: nat): Outcome {
    if DroppedBy(s.operation, now, deadline) then RequestDropped
    else if RunsOut(s.operation, now, deadline) then AfterClosing(s.close, LeaseExpired)
    else if s.operation.value == Ack then
      EndFate(s.commit, s.close, now + s.operation.after, deadline, Committed, CommitOutcomeUnknown)
    else
      var refusal := Refusal(s.operation.value);
      EndFate(s.rollback, s.close, now + s.operation.after, deadline, refusal, refusal)
  }

  /** A wait that must be answered with success before the next one. */
  function WaitFate(future: Future<bool>, now: nat, deadline: nat, onward: Outcome): Outcome {
    if DroppedBy(future, now, deadline) then RequestDropped
    else if RunsOut(future, now, deadline) then LeaseExpired
    else if future.value then onward else Boundary
  }

  function BeginFate(s: Script, now: nat, deadline: nat): Outcome {
    var onward := if s.begin.Never? then LeaseExpired else OperationFate(s, now + s.begin.after, deadline);
    WaitFate(s.begin, now, deadline, onward)
  }

  /** The outcome of an admitted command, from what its waits are answered. */
  function Fate(s: Script, start: nat): Outcome {
    var deadline := start + LEASE;
    var onward := if s.checkout.Never? then LeaseExpired else BeginFate(s, start + s.checkout.after, deadline);
    WaitFate(s.checkout, start, deadline, onward)
  }

  /** BEGIN is sent, or the operation is reached, within the lease. */
  predicate Begins(s: Script) {
    Answers(s.checkout, true) && s.checkout.after <= LEASE
  }

  predicate Operates(s: Script) {
    Begins(s) && Answers(s.begin, true) && s.checkout.after + s.begin.after <= LEASE
  }

  predicate OperationRefuses(s: Script) {
    && Operates(s) && s.operation.Ready? && s.operation.value != Ack
    && s.checkout.after + s.begin.after + s.operation.after <= LEASE
  }

  /** An end of the transaction that starts with what is left of the lease after the operation. */
  predicate EndDropped(s: Script, future: Future<bool>)
    requires Operates(s) && s.operation.Ready?
  {
    var at := s.checkout.after + s.begin.after + s.operation.after;
    || DroppedBy(future, at, LEASE)
    || (!(Answers(future, true) && at + future.after <= LEASE) && DroppedBy(s.close, 0, CLEANUP))
  }

  /** Each outcome, exactly. Success needs every stage in one lease. It is unknown exactly when
      a commit was issued and neither acknowledged nor interrupted. The lease is reported as
      expired exactly when a wait before the commit ran out or the operation said so, a refusal
      of the boundary when a checkout or BEGIN failed or the operation said so, and a rejection
      only when the operation said so, as long as the request is not dropped before the end. */
  lemma FateExactly(s: Script, start: nat)
    ensures Fate(s, start) == Committed <==> FitsTheLease(s)
    ensures Fate(s, start) == CommitOutcomeUnknown <==>
              OperationAnswers(s, Ack) && !FitsTheLease(s) && !EndDropped(s, s.commit)
    ensures Fate(s, start) == Reject <==> OperationAnswers(s, RefusedReject) && !EndDropped(s, s.rollback)
    ensures Fate(s, start) == Boundary <==>
              || (Answers(s.checkout, false) && s.checkout.after <= LEASE)
              || (Begins(s) && Answers(s.begin, false) && s.checkout.after + s.begin.after <= LEASE)
              || (OperationAnswers(s, RefusedBoundary) && !EndDropped(s, s.rollback))
    ensures Fate(s, start) == LeaseExpired <==>
              || RunsOut(s.checkout, 0, LEASE)
              || (Begins(s) && RunsOut(s.begin, s.checkout.after, LEASE))
              || (&& Operates(s) && RunsOut(s.operation, s.checkout.after + s.begin.after, LEASE)
                  && !DroppedBy(s.close, 0, CLEANUP))
              || (OperationAnswers(s, RefusedLease) && !EndDropped(s, s.rollback))
    ensures Fate(s, start) == RequestDropped <==>
              || DroppedBy(s.checkout, 0, LEASE)
              || (Begins(s) && DroppedBy(s.begin, s.checkout.after, LEASE))
              || (Operates(s) && DroppedBy(s.operation, s.checkout.after + s.begin.after, LEASE))
              || (&& Operates(s) && RunsOut(s.operation, s.checkout.after + s.begin.after, LEASE)
                  && DroppedBy(s.close, 0, CLEANUP))
              || (OperationAnswers(s, Ack) && EndDropped(s, s.commit))
              || (OperationRefuses(s) && EndDropped(s, s.rollback))
  {
  }

  /** What that says for whoever reads the outcome. */
  lemma FateIsHonest(s: Script, start: nat)
    ensures Fate(s, start) == Committed <==> FitsTheLease(s)
    ensures forall refusal | refusal != Ack && OperationAnswers(s, refusal) ::
              Fate(s, start) == Refusal(refusal) || Fate(s, start) == RequestDropped
    ensures Fate(s, start) == Reject ==> OperationAnswers(s, RefusedReject)
    ensures Fate(s, start) == RequestDropped ==> MayBeDropped(s)
  {
    FateExactly(s, start);
  }

  /* ---------------------------------- the code -------------------------------- */

  lemma Abandons(x: Command, wake: Wake)
    requires wake.Failed? || wake.TimedOut? || wake.Dropped?
    requires x.wait in {Checkout, Begin} || (wake.Dropped? && x.wait in {Operation, Rollback, Commit})
    ensures Woken(x, wake) == Abandoned(x, Interrupted(wake))
  {
  }

  ghost predicate IsReachable(s: State) {
    exists steps :: s == Run(Init(s.slots), steps)
  }

  lemma StepReaches(s: State, step: Step)
    requires IsReachable(s)
    ensures IsReachable(Apply(s, step))
  {
    var steps :| s == Run(Init(s.slots), steps);
    assert (steps + [step])[..|steps|] == steps;
    assert Apply(s, step) == Run(Init(s.slots), steps + [step]);
  }

  lemma ReachableCommand(s: State, c: Id)
    requires IsReachable(s) && c in s.commands
    ensures CommandOk(s.commands[c])
  {
    var steps :| s == Run(Init(s.slots), steps);
    Reachable(s.slots, steps);
  }

  lemma FinishedCommand(s: State, c: Id)
    requires IsReachable(s) && c in s.commands && s.commands[c].wait.Done?
    ensures s.commands[c].outcome.Some? && Sound(s.commands[c].log, s.commands[c].outcome.value)
  {
    ReachableCommand(s, c);
    FinishedIsSound(s.commands[c]);
  }

  lemma IdleIsKnown(s: State, k: Id)
    requires IsReachable(s) && k in s.idle
    ensures k in s.known
  {
    var steps :| s == Run(Init(s.slots), steps);
    Reachable(s.slots, steps);
  }

  /** The connection that dropping will give back to the pool. */
  function Released(x: Command): set<Id> {
    if x.wait.Returning? && x.connection.Some? then {x.connection.value} else {}
  }

  lemma DropEffect(s: State, c: Id)
    requires IsReachable(s) && c in s.commands && s.commands[c].wait in {Returning, Leaving}
    ensures s.commands[c].wait.Returning? ==> s.commands[c].connection.Some? && !s.commands[c].transaction
    ensures
      var x := s.commands[c];
      var t := Apply(s, Drops(c));
      && IsReachable(t) && t.commands == s.commands[c := Unwound(x)] && t.known == s.known && t.slots == s.slots
      && t.sent == s.sent && t.live == s.live
      && t.idle == s.idle + Released(x)
      && t.available == s.available + if Unwound(x).wait.Done? then 1 else 0
  {
    StepReaches(s, Drops(c));
    ReachableCommand(s, c);
  }

  /** The transaction and the guard have been dropped; the permit is still held. */
  function WithoutConnection(x: Command): Command {
    var log := if x.wait.Returning? then x.log + [ConnectionReturned]
               else if x.connection.Some? then x.log + [ConnectionClosed] else x.log;
    x.(wait := Leaving, transaction := false, connection := None, log := log)
  }

  function FullyUnwound(x: Command): Command {
    Unwound(WithoutConnection(x))
  }

  class AuthorityPool {
    const slots: nat
    var available: nat
    var commands: map<Id, Command>
    var idle: set<Id>
    var known: set<Id>
    var sent: set<Id>
    var live: set<Id>

    function View(): State
      reads this
    {
      State(slots, available, commands, idle, known, sent, live)
    }

    /** Some interleaving of commands leads here. */
    ghost predicate Valid()
      reads this
    {
      IsReachable(View())
    }

    ghost predicate At(c: Id, wait: Wait)
      reads this
    {
      Valid() && c in commands && commands[c].wait == wait
    }

    constructor (slots: nat)
      ensures Valid() && View() == Init(slots)
    {
      this.slots := slots;
      available, commands, idle, known, sent, live := slots, map[], {}, {}, {}, {};
      new;
      assert View() == Run(Init(slots), []);
    }

    /* what the database does */

    method DatabaseBegins(k: Id)
      requires Valid() && k in known
      modifies this`sent, this`live
      ensures Valid() && k !in sent
    {
      ghost var before := View();
      if k in sent {
        sent := sent - {k};
        live := live + {k};
      }
      StepReaches(before, ServerBegins(k));
    }

    method DatabaseEnds(k: Id)
      requires Valid() && k !in sent
      modifies this`live
      ensures Valid() && k !in live
    {
      ghost var before := View();
      live := live - {k};
      StepReaches(before, ServerEnds(k));
    }

    /* statements */

    method TryPermit(c: Id) returns (taken: bool)
      requires Valid() && c !in commands
      modifies this
      ensures Valid() && View() == Apply(old(View()), Start(c))
      ensures taken <==> old(available) > 0
      ensures taken ==> At(c, Checkout)
    {
      ghost var before := View();
      taken := available > 0;
      if taken {
        available := available - 1;
        commands := commands[c := Command(Checkout, true, None, false, None, [PermitTaken])];
      }
      StepReaches(before, Start(c));
    }

    /** The connection moves into the guard, and BEGIN is sent through it. */
    method Guard(c: Id, k: Id)
      requires At(c, Checkout) && k in idle
      modifies this
      ensures At(c, Begin) && View() == Apply(old(View()), Wakes(c, Got(k)))
    {
      ghost var before := View();
      var x := commands[c];
      idle := idle - {k};
      x := x.(wait := Begin, connection := Some(k), log := x.log + [ConnectionCheckedOut]);
      sent := sent + {k};
      x := x.(log := x.log + [BeginIssued]);
      commands := commands[c := x];
      StepReaches(before, Wakes(c, Got(k)));
    }

    /** An early return, or the request dropped: from here on locals are dropped. */
    method Abandon(c: Id, wake: Wake)
      requires Valid() && c in commands && (wake.Failed? || wake.TimedOut? || wake.Dropped?)
      requires commands[c].wait in {Checkout, Begin}
               || (wake.Dropped? && commands[c].wait in {Operation, Rollback, Commit})
      modifies this`commands
      ensures At(c, Leaving) && View() == Apply(old(View()), Wakes(c, wake))
    {
      ghost var before := View();
      Abandons(commands[c], wake);
      commands := commands[c := commands[c].(wait := Leaving, outcome := Some(Interrupted(wake)))];
      StepReaches(before, Wakes(c, wake));
    }

    method OpenTransaction(c: Id)
      requires At(c, Begin) && commands[c].connection.Some? && commands[c].connection.value !in sent
      modifies this`commands
      ensures At(c, Operation) && View() == Apply(old(View()), Wakes(c, Fine))
    {
      ghost var before := View();
      commands := commands[c := commands[c].(wait := Operation, transaction := true)];
      StepReaches(before, Wakes(c, Fine));
    }

    method IssueCommit(c: Id)
      requires At(c, Operation)
      modifies this`commands
      ensures At(c, Commit) && View() == Apply(old(View()), Wakes(c, Said(Ack)))
    {
      ghost var before := View();
      var x := commands[c];
      commands := commands[c := x.(wait := Commit, log := x.log + [CommitIssued])];
      StepReaches(before, Wakes(c, Said(Ack)));
    }

    method IssueRollback(c: Id, refusal: OperationAnswer)
      requires At(c, Operation) && refusal != Ack
      modifies this`commands
      ensures At(c, Rollback) && View() == Apply(old(View()), Wakes(c, Said(refusal)))
    {
      ghost var before := View();
      commands := commands[c := commands[c].(wait := Rollback, outcome := Some(Refusal(refusal)))];
      StepReaches(before, Wakes(c, Said(refusal)));
    }

    /** COMMIT or ROLLBACK was acknowledged: the transaction is over. */
    method Acknowledge(c: Id)
      requires Valid() && c in commands && commands[c].wait in {Rollback, Commit} && commands[c].connection.Some?
      requires commands[c].connection.value !in sent + live
      modifies this`commands
      ensures At(c, Returning) && View() == Apply(old(View()), Wakes(c, Fine))
    {
      ghost var before := View();
      var x := commands[c];
      ReachableCommand(before, c);
      if x.wait.Commit? {
        x := x.(outcome := Some(Committed), log := x.log + [CommitAcknowledged]);
      } else {
        x := x.(log := x.log + [RollbackAcknowledged]);
      }
      commands := commands[c := x.(wait := Returning, transaction := false)];
      StepReaches(before, Wakes(c, Fine));
    }

    /** Drop the transaction and set about closing the connection. */
    method GiveUp(c: Id, wake: Wake)
      requires Valid() && c in commands
      requires wake.TimedOut? || wake.Failed?
      requires commands[c].wait in {Rollback, Commit} || (wake.TimedOut? && commands[c].wait.Operation?)
      modifies this`commands
      ensures At(c, Close) && View() == Apply(old(View()), Wakes(c, wake))
    {
      ghost var before := View();
      var x := commands[c];
      ReachableCommand(before, c);
      if x.wait.Operation? {
        x := x.(outcome := Some(LeaseExpired));
      } else if x.wait.Commit? {
        x := x.(outcome := Some(CommitOutcomeUnknown));
      }
      commands := commands[c := x.(wait := Close, transaction := false)];
      StepReaches(before, Wakes(c, wake));
    }

    /** What dropping the next local does. The guard closes the connection it still holds;
        after an acknowledgement the connection was released from it first. */
    method DropNext(c: Id)
      requires Valid() && c in commands && commands[c].wait in {Returning, Leaving}
      modifies this
      ensures Valid() && View() == Apply(old(View()), Drops(c))
      ensures commands == old(commands)[c := Unwound(old(commands)[c])] && known == old(known)
      ensures idle == old(idle) + Released(old(commands)[c])
      ensures available == old(available) + if commands[c].wait.Done? then 1 else 0
    {
      ghost var before := View();
      var x := commands[c];
      DropEffect(before, c);
      if x.wait.Returning? {
        idle := idle + {x.connection.value};
        x := x.(wait := Leaving, connection := None, log := x.log + [ConnectionReturned]);
      } else if x.transaction {
        x := x.(transaction := false);
      } else if x.connection.Some? {
        x := x.(connection := None, log := x.log + [ConnectionClosed]);
      } else {
        available := available + 1;
        x := x.(wait := Done, permit := false, log := x.log + [PermitDropped]);
      }
      commands := commands[c := x];
      assert x == Unwound(before.commands[c]);
      assert View() == Apply(before, Drops(c));
    }

    method DropGuard(c: Id)
      requires Valid() && c in commands && commands[c].wait in {Returning, Leaving}
      modifies this
      ensures At(c, Leaving) && commands == old(commands)[c := WithoutConnection(old(commands)[c])]
      ensures known == old(known) && available == old(available)
      ensures idle == old(idle) + Released(old(commands)[c])
    {
      DropEffect(View(), c);
      if commands[c].wait.Returning? {
        DropNext(c);
      } else {
        if commands[c].transaction {
          DropNext(c);
        }
        if commands[c].connection.Some? {
          DropNext(c);
        }
      }
    }

    /** Drops every local that is left, whichever way the command ended. */
    method Unwind(c: Id)
      requires Valid() && c in commands && commands[c].wait in {Returning, Leaving}
      modifies this
      ensures At(c, Done) && commands == old(commands)[c := FullyUnwound(old(commands)[c])]
      ensures known == old(known) && available == old(available) + 1
      ensures idle == old(idle) + Released(old(commands)[c])
    {
      DropGuard(c);
      DropNext(c);
    }

    /* the command */

    /** Nothing but this command and its connection is affected. */
    twostate predicate OnlyCommand(c: Id)
      reads this
    {
      && c in commands && commands == old(commands)[c := commands[c]] && available == old(available)
      && idle == old(idle) && known == old(known)
    }

    /** Closes an armed connection within the cleanup reserve. It is closed on drop should
        closing fail, take too long or be interrupted. */
    method CloseConnection(c: Id, close: Future<bool>, now: nat) returns (end: nat)
      requires At(c, Close)
      modifies this`commands
      ensures At(c, Leaving) && OnlyCommand(c)
      ensures
        commands[c] == old(commands)[c].(
          wait := Leaving, connection := None, log := old(commands)[c].log + [ConnectionClosed],
          outcome := if close.DroppedAfter? && close.after <= CLEANUP then Some(RequestDropped)
                     else old(commands)[c].outcome)
      ensures now <= end <= now + CLEANUP
    {
      ghost var before := View();
      var awaited := TimeoutAt(close, now, now + CLEANUP);
      var x := commands[c];
      if awaited.Cancelled? {
        x := x.(outcome := Some(RequestDropped));
      }
      commands := commands[c := x.(wait := Leaving, connection := None, log := x.log + [ConnectionClosed])];
      StepReaches(before, Wakes(c, WakeOf(awaited)));
      end := awaited.at;
    }

    /** The transaction is given up and its connection closed. */
    method GiveUpAndClose(c: Id, wake: Wake, close: Future<bool>, now: nat) returns (end: nat)
      requires Valid() && c in commands && (wake.TimedOut? || wake.Failed?)
      requires commands[c].wait in {Rollback, Commit} || (wake.TimedOut? && commands[c].wait.Operation?)
      modifies this`commands
      ensures At(c, Leaving) && OnlyCommand(c) && now <= end <= now + CLEANUP
      ensures
        var x := old(commands)[c];
        && (x.wait.Rollback? ==> x.outcome.Some?)
        && commands[c].connection.None? && !commands[c].transaction && commands[c].log == x.log + [ConnectionClosed]
        && var outcome := if x.wait.Commit? then CommitOutcomeUnknown
                          else if x.wait.Operation? then LeaseExpired else x.outcome.value;
           commands[c].outcome == Some(AfterClosing(close, outcome))
    {
      ReachableCommand(View(), c);
      GiveUp(c, wake);
      end := CloseConnection(c, close, now);
    }

    /** What follows a COMMIT or ROLLBACK: release after an acknowledgement, close otherwise. */
    method Settle(c: Id, future: Future<bool>, close: Future<bool>, now: nat, deadline: nat) returns (end: nat)
      requires Valid() && c in commands && commands[c].wait in {Rollback, Commit}
      requires commands[c].connection.Some? && commands[c].connection.value !in sent && now <= deadline
      modifies this`commands, this`live
      ensures Valid() && OnlyCommand(c) && now <= end <= deadline + CLEANUP
      ensures
        var x := old(commands)[c];
        var wake := WakeOf(TimeoutAt(future, now, deadline));
        && (wake.Fine? || wake.Dropped? ==> commands[c] == Woken(x, wake) && end <= deadline)
        && (wake.Failed? || wake.TimedOut? ==>
              && commands[c].wait.Leaving? && commands[c].connection.None? && !commands[c].transaction
              && commands[c].log == x.log + [ConnectionClosed]
              && (x.wait.Rollback? ==> x.outcome.Some?)
              && commands[c].outcome
                 == Some(AfterClosing(close, if x.wait.Commit? then CommitOutcomeUnknown else x.outcome.value)))
    {
      ReachableCommand(View(), c);
      var awaited := TimeoutAt(future, now, deadline);
      end := awaited.at;
      if awaited.Cancelled? {
        Abandon(c, Dropped);
      } else if awaited.Answered? && awaited.value {
        DatabaseEnds(commands[c].connection.value);
        Acknowledge(c);
      } else {
        end := GiveUpAndClose(c, WakeOf(awaited), close, end);
      }
    }

    /** The operation refused: roll back inside what is left of the lease. */
    method Refuse(c: Id, script: Script, refusal: OperationAnswer, now: nat, deadline: nat) returns (end: nat)
      requires At(c, Operation) && commands[c].connection.Some? && commands[c].connection.value !in sent
      requires now <= deadline && refusal != Ack
      requires CommitIssued !in commands[c].log && ConnectionClosed !in commands[c].log
      modifies this`commands, this`live
      ensures Valid() && OnlyCommand(c) && now <= end <= deadline + CLEANUP
      ensures
        var acknowledged := Answers(script.rollback, true) && now + script.rollback.after <= deadline;
        && commands[c].wait == (if acknowledged then Returning else Leaving)
        && (acknowledged ==> commands[c].connection == old(commands)[c].connection)
        && CommitIssued !in commands[c].log
        && (end > deadline ==> ConnectionClosed in commands[c].log)
        && (commands[c].connection.None? <==> ConnectionClosed in commands[c].log)
      ensures commands[c].outcome
              == Some(EndFate(script.rollback, script.close, now, deadline, Refusal(refusal), Refusal(refusal)))
      ensures commands[c].outcome == Some(Refusal(refusal))
              || (commands[c].outcome == Some(RequestDropped) && MayBeDropped(script))
    {
      IssueRollback(c, refusal);
      end := Settle(c, script.rollback, script.close, now, deadline);
    }

    /** The operation succeeded: commit inside what is left of the lease. */
    method CommitTransaction(c: Id, script: Script, now: nat, deadline: nat) returns (end: nat)
      requires At(c, Operation) && commands[c].connection.Some? && commands[c].connection.value !in sent
      requires now <= deadline && ConnectionClosed !in commands[c].log
      modifies this`commands, this`live
      ensures Valid() && OnlyCommand(c) && now <= end <= deadline + CLEANUP
      ensures
        var acknowledged := Answers(script.commit, true) && now + script.commit.after <= deadline;
        && commands[c].wait == (if acknowledged then Returning else Leaving)
        && (acknowledged ==> commands[c].connection == old(commands)[c].connection)
        && CommitIssued in commands[c].log
        && (end > deadline ==> ConnectionClosed in commands[c].log)
        && (commands[c].connection.None? <==> ConnectionClosed in commands[c].log)
        && (commands[c].outcome == Some(Committed) <==> acknowledged)
      ensures commands[c].outcome
              == Some(EndFate(script.commit, script.close, now, deadline, Committed, CommitOutcomeUnknown))
      ensures commands[c].outcome in {Some(Committed), Some(CommitOutcomeUnknown)}
              || (commands[c].outcome == Some(RequestDropped) && MayBeDropped(script))
    {
      IssueCommit(c);
      end := Settle(c, script.commit, script.close, now, deadline);
    }

    /** The operation, under the lease, and what follows from its answer. */
    method Operate(c: Id, script: Script, now: nat, deadline: nat) returns (end: nat)
      requires At(c, Operation) && commands[c].connection.Some? && commands[c].connection.value !in sent
      requires now <= deadline && CommitIssued !in commands[c].log && ConnectionClosed !in commands[c].log
      modifies this`commands, this`live
      ensures Valid() && OnlyCommand(c) && now <= end <= deadline + CLEANUP
      ensures commands[c].wait in {Returning, Leaving}
      ensures commands[c].outcome == Some(OperationFate(script, now, deadline))
      ensures commands[c].wait.Returning? ==> commands[c].connection == old(commands)[c].connection
      ensures commands[c].connection.None? <==> ConnectionClosed in commands[c].log
      ensures end > deadline ==> ConnectionClosed in commands[c].log
      ensures CommitIssued in commands[c].log <==>
                Answers(script.operation, Ack) && now + script.operation.after <= deadline
      ensures commands[c].outcome == Some(Committed) <==>
                && Answers(script.operation, Ack) && Answers(script.commit, true)
                && now + script.operation.after + script.commit.after <= deadline
      ensures forall refusal |
                refusal != Ack && Answers(script.operation, refusal) && now + script.operation.after <= deadline ::
                commands[c].outcome in {Some(Refusal(refusal)), Some(RequestDropped)}
      ensures commands[c].outcome == Some(Reject) ==>
                Answers(script.operation, RefusedReject) && now + script.operation.after <= deadline
      ensures commands[c].outcome == Some(RequestDropped) ==> MayBeDropped(script)
    {
      var operation := TimeoutAt(script.operation, now, deadline);
      end := operation.at;
      if operation.Cancelled? {
        Abandon(c, Dropped);
      } else if operation.Elapsed? {
        end := GiveUpAndClose(c, TimedOut, script.close, end);
      } else if operation.value == Ack {
        end := CommitTransaction(c, script, end, deadline);
      } else {
        end := Refuse(c, script, operation.value, end, deadline);
      }
    }

    /** From BEGIN on. An unfinished or failed BEGIN leaves the guard armed. */
    method RunTransaction(c: Id, script: Script, now: nat, deadline: nat) returns (end: nat)
      requires At(c, Begin) && now <= deadline
      requires commands[c].connection.Some? && commands[c].connection.value in known
      requires CommitIssued !in commands[c].log && ConnectionClosed !in commands[c].log
      modifies this`commands, this`sent, this`live
      ensures Valid() && OnlyCommand(c) && now <= end <= deadline + CLEANUP
      ensures commands[c].wait in {Returning, Leaving}
      ensures commands[c].outcome == Some(BeginFate(script, now, deadline))
      ensures commands[c].wait.Returning? ==> commands[c].connection == old(commands)[c].connection
      ensures commands[c].connection.None? <==> ConnectionClosed in commands[c].log
      ensures end > deadline ==> ConnectionClosed in commands[c].log
      ensures CommitIssued in commands[c].log <==>
                && Answers(script.begin, true) && Answers(script.operation, Ack)
                && now + script.begin.after + script.operation.after <= deadline
      ensures commands[c].outcome == Some(Committed) <==>
                && Answers(script.begin, true) && Answers(script.operation, Ack) && Answers(script.commit, true)
                && now + script.begin.after + script.operation.after + script.commit.after <= deadline
      ensures forall refusal |
                && refusal != Ack && Answers(script.begin, true) && Answers(script.operation, refusal)
                && now + script.begin.after + script.operation.after <= deadline ::
                commands[c].outcome in {Some(Refusal(refusal)), Some(RequestDropped)}
      ensures commands[c].outcome == Some(Reject) ==>
                && Answers(script.begin, true) && Answers(script.operation, RefusedReject)
                && now + script.begin.after + script.operation.after <= deadline
      ensures commands[c].outcome == Some(RequestDropped) ==> MayBeDropped(script)
    {
      var begun := TimeoutAt(script.begin, now, deadline);
      end := begun.at;
      if begun.Answered? && begun.value {
        DatabaseBegins(commands[c].connection.value);
        OpenTransaction(c);
        end := Operate(c, script, end, deadline);
      } else {
        Abandon(c, WakeOf(begun));
      }
    }

    /** With a connection in hand, up to where locals are dropped. */
    method RunOn(c: Id, k: Id, script: Script, now: nat, deadline: nat) returns (end: nat)
      requires At(c, Checkout) && commands[c].log == [PermitTaken] && k in idle && now <= deadline
      modifies this
      ensures Valid() && c in commands && commands == old(commands)[c := commands[c]]
      ensures available == old(available) && known == old(known) && idle == old(idle) - {k}
      ensures now <= end <= deadline + CLEANUP
      ensures commands[c].wait in {Returning, Leaving}
      ensures commands[c].outcome == Some(BeginFate(script, now, deadline))
      ensures
        var closed := ConnectionClosed in commands[c].log;
        && (commands[c].wait.Returning? ==> commands[c].connection == Some(k))
        && (commands[c].connection.None? <==> closed)
        && (end > deadline ==> closed)
      ensures CommitIssued in commands[c].log <==>
                && Answers(script.begin, true) && Answers(script.operation, Ack)
                && now + script.begin.after + script.operation.after <= deadline
    {
      IdleIsKnown(View(), k);
      Guard(c, k);
      end := RunTransaction(c, script, now, deadline);
    }

    /** From the checkout on, up to where locals are dropped. */
    method CheckOutAndRun(c: Id, k: Id, script: Script, start: nat) returns (end: nat)
      requires At(c, Checkout) && commands[c].log == [PermitTaken] && commands[c].connection.None?
      requires Answers(script.checkout, true) ==> k in idle
      modifies this
      ensures Valid() && c in commands && commands == old(commands)[c := commands[c]]
      ensures available == old(available) && known == old(known)
      ensures start <= end <= start + LEASE + CLEANUP
      ensures commands[c].wait in {Returning, Leaving} && commands[c].outcome.Some?
      ensures commands[c].outcome == Some(Fate(script, start))
      ensures
        var closed := ConnectionClosed in commands[c].log;
        && (commands[c].wait.Returning? ==> commands[c].connection == Some(k) && !closed && k in old(idle))
        && (idle == if closed || commands[c].connection.Some? then old(idle) - {k} else old(idle))
        && (end > start + LEASE ==> closed)
      ensures CommitIssued in commands[c].log <==> OperationAnswers(script, Ack)
    {
      var deadline := start + LEASE;
      var checkout := TimeoutAt(script.checkout, start, deadline);
      end := checkout.at;
      if checkout.Answered? && checkout.value {
        end := RunOn(c, k, script, end, deadline);
      } else {
        Abandon(c, WakeOf(checkout));
      }
    }

    /** Drops what is left; a connection that is not released is closed. */
    method Finish(c: Id)
      requires Valid() && c in commands && commands[c].wait in {Returning, Leaving} && commands[c].outcome.Some?
      modifies this
      ensures Valid() && c in commands && commands == old(commands)[c := commands[c]]
      ensures known == old(known) && available == old(available) + 1
      ensures commands[c].wait.Done? && commands[c].outcome == old(commands)[c].outcome
      ensures idle == old(idle) + Released(old(commands)[c])
      ensures CommitIssued in commands[c].log <==> CommitIssued in old(commands)[c].log
      ensures ConnectionClosed in commands[c].log <==>
                || ConnectionClosed in old(commands)[c].log
                || (old(commands)[c].wait.Leaving? && old(commands)[c].connection.Some?)
    {
      Unwind(c);
    }

    /** An admitted command, to its end. */
    method RunAdmitted(c: Id, k: Id, script: Script, start: nat) returns (outcome: Outcome, end: nat)
      requires At(c, Checkout) && commands[c].log == [PermitTaken] && commands[c].connection.None?
      requires Answers(script.checkout, true) ==> k in idle
      modifies this
      ensures At(c, Done) && commands == old(commands)[c := commands[c]] && available == old(available) + 1
      ensures commands[c].outcome == Some(outcome) && outcome == Fate(script, start)
      ensures start <= end <= start + LEASE + CLEANUP
      ensures
        var log := commands[c].log;
        && idle == (if ConnectionClosed in log then old(idle) - {k} else old(idle))
        && (end > start + LEASE ==> ConnectionClosed in log)
        && (CommitIssued in log <==> OperationAnswers(script, Ack))
    {
      end := CheckOutAndRun(c, k, script, start);
      outcome := commands[c].outcome.value;
      Finish(c);
    }

    /** Runs one command to its end. Without a permit nothing happens at all. Otherwise the
        permit comes back whatever happens, the pool is short of exactly a connection whose
        transaction was not acknowledged to be over, every wait shares one lease, and only
        closing a connection may use the cleanup reserve: the command has ended before any
        cutoff that began to wait during it gives up. */
    method Execute(c: Id, k: Id, script: Script, start: nat) returns (outcome: Outcome, end: nat)
      requires Valid() && c !in commands
      requires Answers(script.checkout, true) ==> k in idle
      modifies this
      ensures Valid() && available == old(available)
      ensures old(available) == 0 ==> outcome == Boundary && end == start && View() == old(View())
      ensures start <= end <= start + LEASE + CLEANUP < start + CUTOFF
      ensures old(available) > 0 ==>
                && c in commands && commands == old(commands)[c := commands[c]] && commands[c].wait.Done?
                && commands[c].outcome == Some(outcome) && Sound(commands[c].log, outcome)
                && outcome == Fate(script, start)
      ensures old(available) > 0 ==>
                var log := commands[c].log;
                && idle == (if ConnectionClosed in log then old(idle) - {k} else old(idle))
                && (end > start + LEASE ==> ConnectionClosed in log)
                && (CommitIssued in log <==> OperationAnswers(script, Ack))
                && (outcome == Committed <==> FitsTheLease(script))
      ensures old(available) > 0 ==>
                forall refusal | refusal != Ack && OperationAnswers(script, refusal) ::
                  outcome in {Refusal(refusal), RequestDropped}
      ensures outcome == Reject ==> OperationAnswers(script, RefusedReject)
      ensures outcome == RequestDropped ==> MayBeDropped(script)
    {
      var taken := TryPermit(c);
      if !taken {
        return Boundary, start;
      }
      outcome, end := RunAdmitted(c, k, script, start);
      FateIsHonest(script, start);
      FinishedCommand(View(), c);
    }
  }
}
