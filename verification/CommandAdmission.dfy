/** Process-local admission of commands: a global number of permits, and one permit per
    principal held through a map of weak references to semaphores.

    Taking a global permit, the map's lock, the pruning of dead entries, the lookup, the
    attempt on the principal's permit and the two steps of dropping an admission are
    separate, so other commands can run between any two of them. */
module CommandAdmission {
  import opened Basics

  type Id = nat

  /** How far an admission has come. From `Holding` on it owns a strong reference to a
      semaphore; an `Admitted` one has its permit, and so has a `Leaving` one, which has
      given up its global permit only. */
  datatype Stage =
    | Waiting
    | Locked
    | Pruned
    | Holding(semaphore: Id)
    | Admitted(semaphore: Id)
    | Leaving(semaphore: Id)
  {
    predicate InLock() {
      Locked? || Pruned?
    }

    predicate Owner() {
      Holding? || Admitted? || Leaving?
    }

    predicate HasPermit() {
      Admitted? || Leaving?
    }
  }

  datatype Command = Command(principal: Id, stage: Stage)

  /** `global` are the commands with a global permit, `slots` are weak references, and
      `created` are the semaphores ever made. */
  datatype State = State(
    capacity: nat,
    global: set<Id>,
    commands: map<Id, Command>,
    slots: map<Id, Id>,
    created: set<Id>)
  {
    predicate Alive(semaphore: Id) {
      exists c | c in commands :: commands[c].stage.Owner() && commands[c].stage.semaphore == semaphore
    }

    predicate PermitTaken(semaphore: Id) {
      exists c | c in commands :: commands[c].stage.HasPermit() && commands[c].stage.semaphore == semaphore
    }

    predicate LockTaken() {
      exists c | c in commands :: commands[c].stage.InLock()
    }
  }

  datatype Step =
    | TakeGlobal(c: Id, principal: Id)
    | TakeLock(c: Id)
    | Prune(c: Id)
    | LookUp(c: Id, made: Id)
    | TryPermit(c: Id)
    | Leave(c: Id)
    | Finish(c: Id)

  function At(s: State, c: Id, stage: Stage): State
    requires c in s.commands
  {
    s.(commands := s.commands[c := s.commands[c].(stage := stage)])
  }

  function Gone(s: State, c: Id): State {
    s.(commands := s.commands - {c}, global := s.global - {c})
  }

  /** One step; a step that is not enabled changes nothing. A refused or cancelled
      admission drops its strong reference and its global permit. */
  function Apply(s: State, step: Step): State {
    match step
    case TakeGlobal(c, principal) =>
      if c in s.commands || |s.global| >= s.capacity then s
      else s.(commands := s.commands[c := Command(principal, Waiting)], global := s.global + {c})
    case TakeLock(c) =>
      if c in s.commands && s.commands[c].stage.Waiting? && !s.LockTaken() then At(s, c, Locked) else s
    case Prune(c) =>
      if c in s.commands && s.commands[c].stage.Locked? then
        At(s, c, Pruned).(slots := map p | p in s.slots && s.Alive(s.slots[p]) :: s.slots[p])
      else s
    case LookUp(c, made) =>
      if c !in s.commands || !s.commands[c].stage.Pruned? then s
      else
        var p := s.commands[c].principal;
        if p in s.slots && s.Alive(s.slots[p]) then At(s, c, Holding(s.slots[p]))
        else if made in s.created then s
        else At(s, c, Holding(made)).(slots := s.slots[p := made], created := s.created + {made})
    case TryPermit(c) =>
      if c !in s.commands || !s.commands[c].stage.Holding? then s
      else if s.PermitTaken(s.commands[c].stage.semaphore) then Gone(s, c)
      else At(s, c, Admitted(s.commands[c].stage.semaphore))
    case Leave(c) =>
      if c !in s.commands || s.commands[c].stage.Leaving? then s
      else if s.commands[c].stage.Admitted? then
        At(s, c, Leaving(s.commands[c].stage.semaphore)).(global := s.global - {c})
      else Gone(s, c)
    case Finish(c) =>
      if c in s.commands && s.commands[c].stage.Leaving? then Gone(s, c) else s
  }

  function Run(s: State, steps: seq<Step>): State {
    if steps == [] then s else Apply(Run(s, steps[..|steps| - 1]), steps[|steps| - 1])
  }

  function Init(capacity: nat): State {
    State(capacity, {}, map[], map[], {})
  }

  /* --------------------------------- invariant -------------------------------- */

  /** The semaphore a command owns is the one the map names for its principal. */
  ghost predicate OwnersAreListed(s: State) {
    forall c | c in s.commands && s.commands[c].stage.Owner() ::
      && s.commands[c].principal in s.slots
      && s.slots[s.commands[c].principal] == s.commands[c].stage.semaphore
  }

  ghost predicate OnePermitEach(s: State) {
    forall c, d | && c in s.commands && d in s.commands
                  && s.commands[c].stage.HasPermit() && s.commands[d].stage.HasPermit()
                  && s.commands[c].stage.semaphore == s.commands[d].stage.semaphore :: c == d
  }

  ghost predicate SlotsAreDistinct(s: State) {
    && (forall p | p in s.slots :: s.slots[p] in s.created)
    && (forall p, q | p in s.slots && q in s.slots && s.slots[p] == s.slots[q] :: p == q)
  }

  ghost predicate OneInLock(s: State) {
    forall c, d | c in s.commands && d in s.commands && s.commands[c].stage.InLock() && s.commands[d].stage.InLock() ::
      c == d
  }

  /** A command has a global permit until it is leaving. */
  ghost predicate GlobalIsExact(s: State) {
    && |s.global| <= s.capacity
    && (forall c :: c in s.global <==> c in s.commands && !s.commands[c].stage.Leaving?)
  }

  ghost predicate Inv(s: State) {
    OwnersAreListed(s) && OnePermitEach(s) && SlotsAreDistinct(s) && OneInLock(s) && GlobalIsExact(s)
  }

  lemma PruneKeeps(s: State, c: Id)
    requires Inv(s)
    ensures Inv(Apply(s, Prune(c)))
  {
    forall d | d in s.commands && s.commands[d].stage.Owner()
      ensures s.Alive(s.slots[s.commands[d].principal])
    {
      assert s.commands[d].stage.semaphore == s.slots[s.commands[d].principal];
    }
  }

  /** A semaphore is replaced in the map only when no command owns it. */
  lemma LookUpKeeps(s: State, c: Id, made: Id)
    requires Inv(s)
    ensures Inv(Apply(s, LookUp(c, made)))
  {
    if c in s.commands && s.commands[c].stage.Pruned? {
      var p := s.commands[c].principal;
      forall d | d in s.commands && s.commands[d].stage.Owner() && s.commands[d].principal == p
        ensures s.Alive(s.slots[p])
      {
        assert s.commands[d].stage.semaphore == s.slots[p];
      }
    }
  }

  lemma GoneKeeps(s: State, c: Id)
    requires Inv(s)
    ensures Inv(Gone(s, c))
  {
    SubsetSize(s.global - {c}, s.global);
  }

  lemma TakeGlobalKeeps(s: State, c: Id, principal: Id)
    requires Inv(s)
    ensures Inv(Apply(s, TakeGlobal(c, principal)))
  {
    var t := Apply(s, TakeGlobal(c, principal));
    assert OwnersAreListed(t) && OnePermitEach(t);
    assert OneInLock(t) && GlobalIsExact(t);
  }

  lemma TakeLockKeeps(s: State, c: Id)
    requires Inv(s)
    ensures Inv(Apply(s, TakeLock(c)))
  {
  }

  lemma AdmitKeeps(s: State, c: Id)
    requires Inv(s) && c in s.commands && s.commands[c].stage.Holding?
    requires !s.PermitTaken(s.commands[c].stage.semaphore)
    ensures Inv(At(s, c, Admitted(s.commands[c].stage.semaphore)))
  {
    var semaphore := s.commands[c].stage.semaphore;
    forall d | d in s.commands && s.commands[d].stage.HasPermit()
      ensures s.commands[d].stage.semaphore != semaphore
    {
    }
  }

  lemma TryPermitKeeps(s: State, c: Id)
    requires Inv(s)
    ensures Inv(Apply(s, TryPermit(c)))
  {
    if c in s.commands && s.commands[c].stage.Holding? {
      if s.PermitTaken(s.commands[c].stage.semaphore) {
        GoneKeeps(s, c);
      } else {
        AdmitKeeps(s, c);
      }
    }
  }

  lemma ReturnGlobalKeeps(s: State, c: Id)
    requires Inv(s) && c in s.commands && s.commands[c].stage.Admitted?
    ensures Inv(At(s, c, Leaving(s.commands[c].stage.semaphore)).(global := s.global - {c}))
  {
    SubsetSize(s.global - {c}, s.global);
    var t := At(s, c, Leaving(s.commands[c].stage.semaphore)).(global := s.global - {c});
    assert OwnersAreListed(t) && OnePermitEach(t);
    assert OneInLock(t) && GlobalIsExact(t);
  }

  lemma LeaveKeeps(s: State, c: Id)
    requires Inv(s)
    ensures Inv(Apply(s, Leave(c)))
  {
    if c in s.commands && !s.commands[c].stage.Leaving? {
      if s.commands[c].stage.Admitted? {
        ReturnGlobalKeeps(s, c);
      } else {
        GoneKeeps(s, c);
      }
    }
  }

  lemma StepKeeps(s: State, step: Step)
    requires Inv(s)
    ensures Inv(Apply(s, step))
  {
    match step {
      case TakeGlobal(c, principal) => TakeGlobalKeeps(s, c, principal);
      case TakeLock(c) => TakeLockKeeps(s, c);
      case Prune(c) => PruneKeeps(s, c);
      case LookUp(c, made) => LookUpKeeps(s, c, made);
      case TryPermit(c) => TryPermitKeeps(s, c);
      case Leave(c) => LeaveKeeps(s, c);
      case Finish(c) => GoneKeeps(s, c);
    }
  }

  lemma StepKeepsCapacity(s: State, step: Step)
    ensures Apply(s, step).capacity == s.capacity
  {
  }

  lemma {:induction false} Reachable(capacity: nat, steps: seq<Step>)
    ensures Inv(Run(Init(capacity), steps))
    ensures Run(Init(capacity), steps).capacity == capacity
    decreases |steps|
  {
    if steps != [] {
      var before := Run(Init(capacity), steps[..|steps| - 1]);
      Reachable(capacity, steps[..|steps| - 1]);
      StepKeeps(before, steps[|steps| - 1]);
      StepKeepsCapacity(before, steps[|steps| - 1]);
    }
  }

  /* --------------------------------- theorems --------------------------------- */

  /** The commands between admission and the first step of being dropped. */
  function InFlight(s: State): set<Id> {
    set c | c in s.commands && s.commands[c].stage.Admitted?
  }

  /** In every interleaving at most one command per principal is in flight, and at most
      the global capacity in all. */
  lemma AdmissionBounds(capacity: nat, steps: seq<Step>)
    ensures
      var s := Run(Init(capacity), steps);
      && |InFlight(s)| <= capacity
      && (forall c, d | c in InFlight(s) && d in InFlight(s) && s.commands[c].principal == s.commands[d].principal ::
          c == d)
  {
    Reachable(capacity, steps);
    var s := Run(Init(capacity), steps);
    assert InFlight(s) <= s.global;
    SubsetSize(InFlight(s), s.global);
  }

  /** Pruning never splits a principal over two live semaphores. */
  lemma OneLiveSemaphorePerPrincipal(capacity: nat, steps: seq<Step>, c: Id, d: Id)
    requires
      var s := Run(Init(capacity), steps);
      && c in s.commands && d in s.commands && s.commands[c].stage.Owner() && s.commands[d].stage.Owner()
    ensures
      var s := Run(Init(capacity), steps);
      s.commands[c].principal == s.commands[d].principal <==>
        s.commands[c].stage.semaphore == s.commands[d].stage.semaphore
  {
    Reachable(capacity, steps);
  }

  /** A command is refused its principal's permit exactly when another command of the
      same principal has it: no dead semaphore ever stands in the way. */
  lemma RefusedOnlyByOwnPrincipal(capacity: nat, steps: seq<Step>, c: Id)
    requires var s := Run(Init(capacity), steps); c in s.commands && s.commands[c].stage.Holding?
    ensures
      var s := Run(Init(capacity), steps);
      c !in Apply(s, TryPermit(c)).commands <==>
        exists d ::
          d in s.commands && s.commands[d].stage.HasPermit() && s.commands[d].principal == s.commands[c].principal
  {
    Reachable(capacity, steps);
    var s := Run(Init(capacity), steps);
    assert forall d | d in s.commands && s.commands[d].stage.HasPermit() ::
        s.commands[d].principal == s.commands[c].principal <==>
          s.commands[d].stage.semaphore == s.commands[c].stage.semaphore
    by {
      forall d | d in s.commands && s.commands[d].stage.HasPermit()
        ensures s.commands[d].principal == s.commands[c].principal <==>
                s.commands[d].stage.semaphore == s.commands[c].stage.semaphore
      {
        OneLiveSemaphorePerPrincipal(capacity, steps, c, d);
      }
    }
  }

  /** Pruning keeps exactly the entries some command still owns. */
  lemma PruneKeepsTheLiving(capacity: nat, steps: seq<Step>, c: Id, p: Id)
    requires var s := Run(Init(capacity), steps); c in s.commands && s.commands[c].stage.Locked?
    ensures
      var s := Run(Init(capacity), steps);
      p in Apply(s, Prune(c)).slots <==>
        exists d :: d in s.commands && s.commands[d].stage.Owner() && s.commands[d].principal == p
  {
    Reachable(capacity, steps);
    var s := Run(Init(capacity), steps);
    if d :| d in s.commands && s.commands[d].stage.Owner() && s.commands[d].principal == p {
      assert s.Alive(s.slots[p]);
    }
    if p in s.slots && s.Alive(s.slots[p]) {
      var d :| d in s.commands && s.commands[d].stage.Owner() && s.commands[d].stage.semaphore == s.slots[p];
      assert s.slots[s.commands[d].principal] == s.slots[p];
    }
  }

  function Owners(s: State): set<Id> {
    set c | c in s.commands && s.commands[c].stage.Owner()
  }

  function Principals(s: State, cs: set<Id>): set<Id> {
    set c | c in cs && c in s.commands :: s.commands[c].principal
  }

  lemma {:induction false} PrincipalsSize(s: State, cs: set<Id>)
    ensures |Principals(s, cs)| <= |cs|
    decreases |cs|
  {
    if cs == {} {
      assert Principals(s, cs) == {};
    } else {
      var c :| c in cs;
      var rest := Principals(s, cs - {c});
      PrincipalsSize(s, cs - {c});
      assert Principals(s, cs) == if c in s.commands then rest + {s.commands[c].principal} else rest;
    }
  }

  /** After pruning the map has no more entries than there are commands past the lookup. */
  lemma PrunedMapIsSmall(capacity: nat, steps: seq<Step>, c: Id)
    requires var s := Run(Init(capacity), steps); c in s.commands && s.commands[c].stage.Locked?
    ensures var s := Run(Init(capacity), steps); |Apply(s, Prune(c)).slots| <= |Owners(s)|
  {
    var s := Run(Init(capacity), steps);
    var pruned := Apply(s, Prune(c)).slots;
    forall p | p in pruned
      ensures p in Principals(s, Owners(s))
    {
      PruneKeepsTheLiving(capacity, steps, c, p);
      var d :| d in s.commands && s.commands[d].stage.Owner() && s.commands[d].principal == p;
      assert d in Owners(s);
    }
    PrincipalsSize(s, Owners(s));
    SubsetSize(pruned.Keys, Principals(s, Owners(s)));
  }

  /* who gets in, and what leaving gives back */

  /** The steps of an admission, with no other command in between, up to the attempt on the
      principal's permit. */
  function LookedUp(s: State, c: Id, principal: Id, made: Id): State {
    Apply(Apply(Apply(Apply(s, TakeGlobal(c, principal)), TakeLock(c)), Prune(c)), LookUp(c, made))
  }

  /** All of them. */
  function Admission(s: State, c: Id, principal: Id, made: Id): State {
    Apply(LookedUp(s, c, principal, made), TryPermit(c))
  }

  ghost predicate HasCommandOf(s: State, principal: Id) {
    exists d :: d in s.commands && s.commands[d].stage.HasPermit() && s.commands[d].principal == principal
  }

  lemma LockStaysFree(s: State, c: Id, principal: Id)
    requires c !in s.commands && !s.LockTaken()
    ensures !Apply(s, TakeGlobal(c, principal)).LockTaken()
  {
    forall d | d in Apply(s, TakeGlobal(c, principal)).commands
      ensures !Apply(s, TakeGlobal(c, principal)).commands[d].stage.InLock()
    {
      assert d == c || d in s.commands;
    }
  }

  /** With a global permit and the lock to be had, a command gets both. */
  lemma TakesPermitAndLock(s: State, c: Id, principal: Id)
    requires c !in s.commands && |s.global| < s.capacity && !s.LockTaken()
    ensures Apply(Apply(s, TakeGlobal(c, principal)), TakeLock(c))
            == s.(commands := s.commands[c := Command(principal, Locked)], global := s.global + {c})
  {
    LockStaysFree(s, c, principal);
  }

  /** In the lock it finds its principal's semaphore, or makes one. */
  lemma FindsSemaphore(s: State, c: Id, made: Id)
    requires c in s.commands && s.commands[c].stage.Locked? && made !in s.created
    ensures
      var t := Apply(Apply(s, Prune(c)), LookUp(c, made));
      && t.global == s.global && t.commands == s.commands[c := t.commands[c]]
      && t.commands[c].stage.Holding? && t.commands[c].principal == s.commands[c].principal
  {
  }

  lemma FourStepsKeep(s: State, one: Step, two: Step, three: Step, four: Step)
    requires Inv(s)
    ensures Inv(Apply(Apply(Apply(Apply(s, one), two), three), four))
  {
    StepKeeps(s, one);
    StepKeeps(Apply(s, one), two);
    StepKeeps(Apply(Apply(s, one), two), three);
    StepKeeps(Apply(Apply(Apply(s, one), two), three), four);
  }

  lemma ReachesSemaphore(s: State, c: Id, principal: Id, made: Id)
    requires c !in s.commands && made !in s.created && |s.global| < s.capacity && !s.LockTaken()
    ensures
      var t := LookedUp(s, c, principal, made);
      && t.global == s.global + {c} && t.commands == s.commands[c := t.commands[c]]
      && t.commands[c].stage.Holding? && t.commands[c].principal == principal
  {
    var locked := s.(commands := s.commands[c := Command(principal, Locked)], global := s.global + {c});
    TakesPermitAndLock(s, c, principal);
    FindsSemaphore(locked, c, made);
  }

  /** The semaphore's permit is taken exactly by another command of the principal. */
  lemma PermitIsThePrincipals(s: State, c: Id)
    requires Inv(s) && c in s.commands && s.commands[c].stage.Holding?
    ensures s.PermitTaken(s.commands[c].stage.semaphore) <==> HasCommandOf(s, s.commands[c].principal)
  {
    var principal := s.commands[c].principal;
    if d :| d in s.commands && s.commands[d].stage.HasPermit() && s.commands[d].principal == principal {
      assert s.commands[d].stage.semaphore == s.slots[principal];
    }
  }

  lemma OthersOnly(s: State, t: State, c: Id, principal: Id)
    requires c in t.commands && !t.commands[c].stage.HasPermit() && c !in s.commands
    requires t.commands == s.commands[c := t.commands[c]]
    ensures HasCommandOf(t, principal) <==> HasCommandOf(s, principal)
  {
    if d :| d in s.commands && s.commands[d].stage.HasPermit() && s.commands[d].principal == principal {
      assert t.commands[d] == s.commands[d];
    }
  }

  /** The last step admits the command, or refuses it and takes back what it had. */
  lemma PermitDecides(s: State, t: State, c: Id, principal: Id)
    requires Inv(t) && c !in s.commands && c !in s.global
    requires t.global == s.global + {c} && c in t.commands && t.commands == s.commands[c := t.commands[c]]
    requires t.commands[c].stage.Holding? && t.commands[c].principal == principal
    ensures
      var u := Apply(t, TryPermit(c));
      if HasCommandOf(s, principal) then u.commands == s.commands && u.global == s.global
      else
        && c in u.commands && u.commands[c].stage.Admitted?
        && u.commands == s.commands[c := u.commands[c]] && u.global == s.global + {c}
  {
    PermitIsThePrincipals(t, c);
    OthersOnly(s, t, c, principal);
  }

  lemma AdmissionEnds(s: State, c: Id, principal: Id, made: Id)
    requires Inv(s) && c !in s.commands && made !in s.created && |s.global| < s.capacity && !s.LockTaken()
    ensures
      var t := Admission(s, c, principal, made);
      if HasCommandOf(s, principal) then t.commands == s.commands && t.global == s.global
      else
        && c in t.commands && t.commands[c].stage.Admitted?
        && t.commands == s.commands[c := t.commands[c]] && t.global == s.global + {c}
  {
    ReachesSemaphore(s, c, principal, made);
    FourStepsKeep(s, TakeGlobal(c, principal), TakeLock(c), Prune(c), LookUp(c, made));
    PermitDecides(s, LookedUp(s, c, principal, made), c, principal);
  }

  lemma AdmissionWaits(s: State, c: Id, principal: Id, made: Id)
    requires c !in s.commands && (|s.global| >= s.capacity || s.LockTaken())
    ensures
      var t := Admission(s, c, principal, made);
      if |s.global| >= s.capacity then t == s
      else t == s.(commands := s.commands[c := Command(principal, Waiting)], global := s.global + {c})
  {
    var waiting := Apply(s, TakeGlobal(c, principal));
    if |s.global| < s.capacity {
      var d :| d in s.commands && s.commands[d].stage.InLock();
      assert waiting.commands[d].stage.InLock();
    }
  }

  /** An admission that nobody interrupts succeeds exactly if a global permit and the lock are
      free and the principal has no other command. Refused, it leaves commands and permits as
      they were, and another command is never affected. */
  lemma AdmitsExactly(capacity: nat, steps: seq<Step>, c: Id, principal: Id, made: Id)
    requires var s := Run(Init(capacity), steps); c !in s.commands && made !in s.created
    ensures
      var s := Run(Init(capacity), steps);
      var t := Admission(s, c, principal, made);
      if |s.global| >= capacity then t == s
      else if s.LockTaken() then
        t == s.(commands := s.commands[c := Command(principal, Waiting)], global := s.global + {c})
      else if HasCommandOf(s, principal) then t.commands == s.commands && t.global == s.global
      else
        && c in t.commands && t.commands[c].stage.Admitted?
        && t.commands == s.commands[c := t.commands[c]] && t.global == s.global + {c}
  {
    var s := Run(Init(capacity), steps);
    Reachable(capacity, steps);
    if |s.global| < capacity && !s.LockTaken() {
      AdmissionEnds(s, c, principal, made);
    } else {
      AdmissionWaits(s, c, principal, made);
    }
  }

  /** Leaving gives everything back, from every stage: the global permit at once, then the
      principal's permit or the lock, and nothing of any other command. */
  lemma LeavingGivesBack(capacity: nat, steps: seq<Step>, c: Id)
    requires c in Run(Init(capacity), steps).commands
    ensures
      var s := Run(Init(capacity), steps);
      var (left, t) := (Apply(s, Leave(c)), Apply(Apply(s, Leave(c)), Finish(c)));
      && c !in left.global
      && t.commands == s.commands - {c} && t.global == s.global - {c} && t.slots == s.slots && t.created == s.created
      && (s.commands[c].stage.HasPermit() ==> !HasCommandOf(t, s.commands[c].principal))
      && (s.commands[c].stage.InLock() ==> !t.LockTaken())
  {
    Reachable(capacity, steps);
  }

  /* ----------------------------- the shared structures ------------------------ */

  /** What the commands of one process share, changed in place. */
  class AdmissionSlots {
    const capacity: nat
    var global: set<Id>
    var commands: map<Id, Command>
    var slots: map<Id, Id>
    var created: set<Id>

    function View(): State
      reads this
    {
      State(capacity, global, commands, slots, created)
    }

    constructor (capacity: nat)
      ensures View() == Init(capacity)
    {
      this.capacity := capacity;
      global, commands, slots, created := {}, map[], map[], {};
    }

    method TakeGlobalPermit(c: Id, principal: Id) returns (taken: bool)
      requires c !in commands
      modifies this
      ensures View() == Apply(old(View()), TakeGlobal(c, principal))
      ensures taken <==> |old(global)| < capacity
    {
      taken := |global| < capacity;
      if taken {
        global := global + {c};
        commands := commands[c := Command(principal, Waiting)];
      }
    }

    /** With the lock held: prune, then share the live semaphore or make a new one. */
    method PrincipalSlots(c: Id, made: Id) returns (semaphore: Id)
      requires c in commands && commands[c].stage.Locked? && made !in created
      modifies this
      ensures View() == Apply(Apply(old(View()), Prune(c)), LookUp(c, made))
      ensures commands[c].stage == Holding(semaphore) && slots[commands[c].principal] == semaphore
    {
      var principal := commands[c].principal;
      slots := map p | p in slots && View().Alive(slots[p]) :: slots[p];
      commands := commands[c := commands[c].(stage := Pruned)];
      if principal in slots && View().Alive(slots[principal]) {
        semaphore := slots[principal];
      } else {
        semaphore := made;
        slots := slots[principal := made];
        created := created + {made};
      }
      commands := commands[c := commands[c].(stage := Holding(semaphore))];
    }

    method TryPrincipalPermit(c: Id) returns (admitted: bool)
      requires c in commands && commands[c].stage.Holding?
      modifies this
      ensures View() == Apply(old(View()), TryPermit(c))
      ensures admitted <==> c in commands
    {
      admitted := !View().PermitTaken(commands[c].stage.semaphore);
      if admitted {
        commands := commands[c := commands[c].(stage := Admitted(commands[c].stage.semaphore))];
      } else {
        commands := commands - {c};
        global := global - {c};
      }
    }

    /** The fields of an admission drop in order: the global permit first. */
    method Drop(c: Id)
      requires c in commands && commands[c].stage.Admitted?
      modifies this
      ensures View() == Apply(Apply(old(View()), Leave(c)), Finish(c))
      ensures c !in commands && c !in global && slots == old(slots)
    {
      global := global - {c};
      commands := commands - {c};
    }
  }
}
