/**
 The board lease: one owner field under a mutex, and a condition variable. Threads acquire with a
 timeout, wait, are woken (also for no reason), and drop their guard, in any interleaving. A step
 is what a thread does while it holds the mutex, so steps are atomic.
 */
module Lease {
  import opened Basics

  datatype LeaseOwner = LeaseOwner(operationId: string, operation: string)

  /**
   Where a thread stands. A thread that is entering or awake will next check the owner field under
   the mutex; a blocked one sleeps on the condition variable; a holder has a guard; a refused one
   was told BoardBusy, by the operation it found to hold the lease.
   */
  datatype Phase =
    | Idle
    | Entering(owner: LeaseOwner, deadline: nat)
    | Blocked(owner: LeaseOwner, deadline: nat)
    | Awake(owner: LeaseOwner, deadline: nat)
    | Holding(guard: LeaseOwner)
    | Refused(heldBy: string)
    | Dropped

  /** All threads, by their number; those not yet started are idle. */
  datatype State = State(owner: Option<LeaseOwner>, threads: seq<Phase>, clock: nat)

  datatype Step =
    | Call(t: nat, caller: LeaseOwner, timeout: nat)
    | Check(t: nat)
    | Wake(t: nat)
    | Drop(t: nat, notified: nat)
    | Tick(duration: nat)

  function Initial(threads: nat): State {
    State(None, seq(threads, _ => Idle), 0)
  }

  predicate WillCheck(phase: Phase) {
    phase.Entering? || phase.Awake?
  }

  ghost predicate SomeBlocked(s: State) {
    exists t :: 0 <= t < |s.threads| && s.threads[t].Blocked?
  }

  /** What a thread finds when it checks the owner field. */
  function Checked(s: State, t: nat): State
    requires t < |s.threads| && WillCheck(s.threads[t])
  {
    var me := s.threads[t];
    match s.owner
    case None => State(Some(me.owner), s.threads[t := Holding(me.owner)], s.clock)
    case Some(holder) =>
      if s.clock >= me.deadline then s.(threads := s.threads[t := Refused(holder.operationId)])
      else s.(threads := s.threads[t := Blocked(me.owner, me.deadline)])
  }

  function Woken(threads: seq<Phase>, t: nat): seq<Phase>
    requires t < |threads| && threads[t].Blocked?
  {
    threads[t := Awake(threads[t].owner, threads[t].deadline)]
  }

  /** The step s takes to s'. A notification wakes one of the blocked threads, if there is one. */
  ghost predicate Next(s: State, step: Step, s': State) {
    match step
    case Call(t, caller, timeout) =>
      && t < |s.threads| && s.threads[t].Idle?
      && s' == s.(threads := s.threads[t := Entering(caller, s.clock + timeout)])
    case Check(t) =>
      && t < |s.threads| && WillCheck(s.threads[t])
      && s' == Checked(s, t)
    case Wake(t) =>
      && t < |s.threads| && s.threads[t].Blocked?
      && s' == s.(threads := Woken(s.threads, t))
    case Drop(t, notified) =>
      && t < |s.threads| && s.threads[t].Holding?
      && var dropped := s.threads[t := Dropped];
         if s.owner != Some(s.threads[t].guard) then s' == s.(threads := dropped)
         else if !SomeBlocked(s) then s' == s.(owner := None, threads := dropped)
         else
           && notified < |s.threads| && s.threads[notified].Blocked?
           && s' == s.(owner := None, threads := Woken(dropped, notified))
    case Tick(duration) =>
      s' == s.(clock := s.clock + duration)
  }

  ghost predicate Run(s: State, steps: seq<Step>, s': State)
    decreases |steps|
  {
    if steps == [] then s == s'
    else exists mid: State :: Next(s, steps[0], mid) && Run(mid, steps[1..], s')
  }

  ghost predicate Reachable(s: State) {
    exists threads: nat, steps: seq<Step> :: Run(Initial(threads), steps, s)
  }

  // ---- Safety ----

  ghost predicate Holds(s: State, t: nat) {
    t < |s.threads| && s.threads[t].Holding?
  }

  /**
   The owner field names the guard of the one holder exactly while there is one; and a free lease
   with blocked threads has a thread that was woken and has yet to check.
   */
  ghost predicate Inv(s: State) {
    && (forall t: nat, u: nat :: Holds(s, t) && Holds(s, u) ==> t == u)
    && (forall t: nat :: Holds(s, t) ==> s.owner == Some(s.threads[t].guard))
    && (s.owner.Some? ==> exists t: nat :: Holds(s, t))
    && (s.owner.None? && SomeBlocked(s) ==> exists t :: 0 <= t < |s.threads| && s.threads[t].Awake?)
  }

  lemma InitialInv(threads: nat)
    ensures Inv(Initial(threads))
  {
  }

  lemma CheckKeepsInv(s: State, t: nat)
    requires Inv(s) && t < |s.threads| && WillCheck(s.threads[t])
    ensures Inv(Checked(s, t))
  {
    var s' := Checked(s, t);
    forall u: nat | u != t
      ensures Holds(s', u) <==> Holds(s, u)
    {
    }
    if s.owner.None? {
      assert Holds(s', t);
    } else {
      var holder: nat :| Holds(s, holder);
      assert Holds(s', holder);
    }
  }

  lemma DropKeepsInv(s: State, t: nat, notified: nat, s': State)
    requires Inv(s) && Next(s, Drop(t, notified), s')
    ensures Inv(s') && s'.owner.None?
  {
    assert Holds(s, t);
    forall u: nat
      ensures !Holds(s', u)
    {
      assert u != t ==> !Holds(s, u);
    }
    if SomeBlocked(s) {
      assert s'.threads[notified].Awake?;
    } else {
      forall u | 0 <= u < |s'.threads|
        ensures !s'.threads[u].Blocked?
      {
        assert !s.threads[u].Blocked?;
      }
    }
  }

  lemma OtherStepsKeepInv(s: State, step: Step, s': State)
    requires Inv(s) && Next(s, step, s') && !step.Check? && !step.Drop?
    ensures Inv(s')
  {
    forall u: nat
      ensures Holds(s', u) <==> Holds(s, u)
    {
    }
    if s.owner.Some? {
      var holder: nat :| Holds(s, holder);
      assert Holds(s', holder);
    }
    if s'.owner.None? && SomeBlocked(s') {
      var b :| 0 <= b < |s'.threads| && s'.threads[b].Blocked?;
      assert s.threads[b].Blocked?;
      var a :| 0 <= a < |s.threads| && s.threads[a].Awake?;
      assert s'.threads[a].Awake?;
    }
  }

  lemma StepKeepsInv(s: State, step: Step, s': State)
    requires Inv(s) && Next(s, step, s')
    ensures Inv(s')
  {
    match step
    case Check(t) => CheckKeepsInv(s, t);
    case Drop(t, notified) => DropKeepsInv(s, t, notified, s');
    case _ => OtherStepsKeepInv(s, step, s');
  }

  lemma {:induction false} RunKeepsInv(s: State, steps: seq<Step>, s': State)
    requires Inv(s) && Run(s, steps, s')
    ensures Inv(s')
    decreases |steps|
  {
    if steps != [] {
      var mid: State :| Next(s, steps[0], mid) && Run(mid, steps[1..], s');
      StepKeepsInv(s, steps[0], mid);
      RunKeepsInv(mid, steps[1..], s');
    }
  }

  lemma ReachableInv(s: State)
    requires Reachable(s)
    ensures Inv(s)
  {
    var threads: nat, steps: seq<Step> :| Run(Initial(threads), steps, s);
    InitialInv(threads);
    RunKeepsInv(Initial(threads), steps, s);
  }

  /** No double grant: at most one guard lives, and the owner field is its owner. */
  lemma NoDoubleGrant(s: State, t: nat, u: nat)
    requires Reachable(s) && Holds(s, t) && Holds(s, u)
    ensures t == u && s.owner == Some(s.threads[t].guard)
  {
    ReachableInv(s);
  }

  /** Dropping a guard always frees the lease: the comparison with the owner field cannot fail. */
  lemma DropAlwaysFrees(s: State, t: nat, notified: nat, s': State)
    requires Reachable(s) && Next(s, Drop(t, notified), s')
    ensures s'.owner.None? && !s'.threads[t].Holding?
  {
    ReachableInv(s);
    DropKeepsInv(s, t, notified, s');
  }

  /** BoardBusy is only told after a check found a live guard of another thread, at or after the caller's deadline. */
  lemma BusyMeansHeld(s: State, step: Step, s': State, t: nat)
    requires Reachable(s) && Next(s, step, s')
    requires t < |s.threads| && !s.threads[t].Refused? && s'.threads[t].Refused?
    ensures step == Check(t) && WillCheck(s.threads[t]) && s.threads[t].deadline <= s.clock
    ensures exists u: nat ::
              u != t && Holds(s, u) && Holds(s', u) && s'.threads[t].heldBy == s.threads[u].guard.operationId
  {
    ReachableInv(s);
    var u: nat :| Holds(s, u);
    assert u != t && Holds(s', u);
  }

  /**
   No lost wake-up: whenever the lease is free while threads are blocked, some waiter is awake, and
   its next check takes the lease.
   */
  lemma NoLostWakeUp(s: State)
    requires Reachable(s) && s.owner.None? && SomeBlocked(s)
    ensures exists t: nat :: t < |s.threads| && s.threads[t].Awake? && Next(s, Check(t), Checked(s, t)) && Holds(Checked(s, t), t)
  {
    ReachableInv(s);
    var t :| 0 <= t < |s.threads| && s.threads[t].Awake?;
    assert Next(s, Check(t), Checked(s, t));
  }

  /** Where a thread that has called stands: its own owner, a deadline set by its call, and no refusal before that. */
  ghost predicate HasCalled(s: State, t: nat, caller: LeaseOwner, deadline: nat) {
    && t < |s.threads|
    && match s.threads[t]
       case Idle => false
       case Entering(owner, d) => owner == caller && d == deadline
       case Blocked(owner, d) => owner == caller && d == deadline
       case Awake(owner, d) => owner == caller && d == deadline
       case Holding(guard) => guard == caller
       case Refused(_) => deadline <= s.clock
       case Dropped => true
  }

  lemma StepKeepsCall(s: State, step: Step, s': State, t: nat, caller: LeaseOwner, deadline: nat)
    requires Next(s, step, s') && HasCalled(s, t, caller, deadline)
    ensures HasCalled(s', t, caller, deadline)
  {
    hide SomeBlocked;
  }

  lemma {:induction false} RunKeepsCall(
      s: State, steps: seq<Step>, s': State, t: nat, caller: LeaseOwner, deadline: nat)
    requires Run(s, steps, s') && HasCalled(s, t, caller, deadline)
    ensures HasCalled(s', t, caller, deadline)
    decreases |steps|
  {
    if steps != [] {
      hide Next, HasCalled;
      var mid: State :| Next(s, steps[0], mid) && Run(mid, steps[1..], s');
      StepKeepsCall(s, steps[0], mid, t, caller, deadline);
      RunKeepsCall(mid, steps[1..], s', t, caller, deadline);
    }
  }

  /**
   Whatever happens after a call: it is refused only once the timeout it was given has passed since,
   and a guard it gets is its own.
   */
  lemma CallKeepsItsWord(
      s: State, t: nat, caller: LeaseOwner, timeout: nat, called: State, steps: seq<Step>, s': State)
    requires Next(s, Call(t, caller, timeout), called) && Run(called, steps, s')
    ensures t < |s'.threads|
    ensures s'.threads[t].Refused? ==> s.clock + timeout <= s'.clock
    ensures s'.threads[t].Holding? ==> s'.threads[t].guard == caller
  {
    RunKeepsCall(called, steps, s', t, caller, s.clock + timeout);
  }

  /** A thread that checks at or after its deadline does not wait again. */
  lemma DeadlineEndsWaiting(s: State, t: nat, s': State)
    requires Reachable(s) && Next(s, Check(t), s') && s.threads[t].deadline <= s.clock
    ensures if s.owner.None? then Holds(s', t) else exists u: nat :: Holds(s, u) && s'.threads[t] == Refused(s.threads[u].guard.operationId)
  {
    ReachableInv(s);
    if s.owner.Some? {
      var u: nat :| Holds(s, u);
    }
  }

  /**
   The lease does not queue: whenever a thread has been woken to a free lease, another that only now
   arrives can take the lease first and send the woken one back to sleep.
   */
  lemma BargingIsPossible(s: State, woken: nat, newcomer: nat, caller: LeaseOwner, timeout: nat)
    requires woken < |s.threads| && s.threads[woken].Awake? && s.clock < s.threads[woken].deadline
    requires newcomer < |s.threads| && s.threads[newcomer].Idle? && s.owner.None?
    ensures exists s1: State, s2: State, s3: State ::
              && Next(s, Call(newcomer, caller, timeout), s1)
              && Next(s1, Check(newcomer), s2)
              && Next(s2, Check(woken), s3)
              && Holds(s3, newcomer) && s3.threads[woken].Blocked?
  {
    var s1 := s.(threads := s.threads[newcomer := Entering(caller, s.clock + timeout)]);
    assert Next(s, Call(newcomer, caller, timeout), s1);
    var s2 := Checked(s1, newcomer);
    assert Next(s1, Check(newcomer), s2);
    assert Next(s2, Check(woken), Checked(s2, woken));
  }
}
