/**
 All threads of one board together: requests that run operations under the lease, the worker that
 a power-on starts, keys typed at the interactive console, and active probes, which take no lease.
 Every request is a thread of its own; its number names it in the lease, the log and the grants.
 */
module ControlPlane {
  import opened Basics
  import Lease
  import opened Serial
  import Uboot = PowerOnUboot
  import Relay

  /** What a request does while it holds the lease, and what it has written to the UART so far. */
  datatype Op =
    | Ordinary(sent: Bytes)
    | PowerOn(config: Uboot.Config, uboot: Uboot.State, sent: Bytes)
    | ConsoleKey(key: Byte, sent: Bytes)

  datatype Event = Wrote(op: nat, bytes: Bytes) | RelayChanged(op: nat, on: bool) | Probed(bytes: Bytes)

  /** grants lists the requests in the order in which they got the lease. */
  datatype State = State(lease: Lease.State, ops: seq<Op>, grants: seq<nat>, log: seq<Event>)

  datatype Step =
    | OfLease(step: Lease.Step)
    | Write(t: nat, bytes: Bytes)
    | Switch(t: nat, on: bool)
    | PressKey(t: nat)
    | OfPowerOn(t: nat, action: Uboot.Step)
    | Probe(bytes: Bytes)

  ghost predicate IsStart(s: State) {
    && s.lease == Lease.Initial(|s.ops|)
    && s.grants == [] && s.log == []
    && (forall t :: 0 <= t < |s.ops| ==> s.ops[t].sent == [])
    && (forall t :: 0 <= t < |s.ops| && s.ops[t].PowerOn? ==>
          exists h: History, log: seq<Relay.Call> :: h.Valid() && s.ops[t].uboot == Uboot.Initial(h, log))
  }

  /** The steps of a power-on that its own thread takes; the others are the worker's or the environment's. */
  predicate IsMainThread(step: Uboot.Step) {
    step.ReadRelay? || step.Advance? || step.Look? || step.Transmit?
  }

  /** What a step of a power-on adds to the log. */
  ghost function Logged(t: nat, op: Op, step: Uboot.Step): seq<Event>
    requires op.PowerOn?
  {
    if step.Issue? then if step.call.request.Change? then [RelayChanged(t, step.call.request.on)] else []
    else if step.Transmit? then [Wrote(t, Transmitted(op, step))]
    else []
  }

  ghost function Transmitted(op: Op, step: Uboot.Step): Bytes
    requires op.PowerOn?
  {
    if step.Transmit? && op.uboot.pc.Send? && step.count <= |Uboot.Message(op.config, op.uboot.pc.stage)|
    then Uboot.Message(op.config, op.uboot.pc.stage)[..step.count]
    else []
  }

  /** A guard is dropped when the operation's closure has returned. */
  predicate HasReturned(op: Op) {
    op.PowerOn? ==> op.uboot.pc.Done?
  }

  ghost predicate Next(s: State, step: Step, s': State) {
    match step
    case OfLease(l) =>
      && Lease.Next(s.lease, l, s'.lease)
      && (l.Drop? ==> l.t < |s.ops| && HasReturned(s.ops[l.t]))
      && s' == s.(lease := s'.lease, grants := if l.Check? && s.lease.owner.None? then s.grants + [l.t] else s.grants)
    case Write(t, bytes) =>
      && t < |s.ops| && s.ops[t].Ordinary? && Lease.Holds(s.lease, t)
      && s' == s.(ops := s.ops[t := Ordinary(s.ops[t].sent + bytes)], log := s.log + [Wrote(t, bytes)])
    case Switch(t, on) =>
      && t < |s.ops| && s.ops[t].Ordinary? && Lease.Holds(s.lease, t)
      && s' == s.(log := s.log + [RelayChanged(t, on)])
    case PressKey(t) =>
      && t < |s.ops| && s.ops[t].ConsoleKey? && s.ops[t].sent == [] && Lease.Holds(s.lease, t)
      && s' == s.(ops := s.ops[t := s.ops[t].(sent := [s.ops[t].key])], log := s.log + [Wrote(t, [s.ops[t].key])])
    case OfPowerOn(t, u) =>
      && t < |s.ops| && s.ops[t].PowerOn?
      && (IsMainThread(u) ==> Lease.Holds(s.lease, t))
      && var next := Uboot.Next(s.ops[t].config, s.ops[t].uboot, u);
         && next.Some?
         && s' == s.(ops := s.ops[t := s.ops[t].(uboot := next.value, sent := s.ops[t].sent + Transmitted(s.ops[t], u))],
                     log := s.log + Logged(t, s.ops[t], u))
    case Probe(bytes) =>
      s' == s.(log := s.log + [Probed(bytes)])
  }

  ghost predicate Run(s: State, steps: seq<Step>, s': State)
    decreases |steps|
  {
    if steps == [] then s == s'
    else exists mid: State :: Next(s, steps[0], mid) && Run(mid, steps[1..], s')
  }

  ghost predicate Reachable(s: State) {
    exists start: State, steps: seq<Step> :: IsStart(start) && Run(start, steps, s)
  }

  // ---- The UART as a sequence of blocks ----

  /** Every byte, with the request that wrote it. */
  function Tagged(t: nat, bytes: Bytes): seq<(nat, Byte)> {
    seq(|bytes|, i requires 0 <= i < |bytes| => (t, bytes[i]))
  }

  /** What went out on the UART, with the probes removed. */
  function Leased(log: seq<Event>): seq<(nat, Byte)> {
    if log == [] then []
    else
      var last := log[|log| - 1];
      Leased(log[..|log| - 1]) + (if last.Wrote? then Tagged(last.op, last.bytes) else [])
  }

  /** One block for each request that got the lease, in that order: all that it wrote. */
  ghost function Blocks(grants: seq<nat>, ops: seq<Op>): seq<(nat, Byte)> {
    if grants == [] then []
    else
      var t := grants[|grants| - 1];
      Blocks(grants[..|grants| - 1], ops) + (if t < |ops| then Tagged(t, ops[t].sent) else [])
  }

  lemma TaggedJoin(t: nat, a: Bytes, b: Bytes)
    ensures Tagged(t, a + b) == Tagged(t, a) + Tagged(t, b)
  {
  }

  lemma LeasedAppend(log: seq<Event>, event: Event)
    ensures Leased(log + [event]) == Leased(log) + (if event.Wrote? then Tagged(event.op, event.bytes) else [])
  {
    assert (log + [event])[..|log|] == log;
  }

  lemma {:induction false} BlocksUntouched(grants: seq<nat>, ops: seq<Op>, t: nat, op: Op)
    requires t < |ops| && t !in grants
    ensures Blocks(grants, ops[t := op]) == Blocks(grants, ops)
  {
    if grants != [] {
      BlocksUntouched(grants[..|grants| - 1], ops, t, op);
    }
  }

  lemma LastBlock(grants: seq<nat>, ops: seq<Op>)
    requires grants != [] && grants[|grants| - 1] < |ops|
    ensures
      var t := grants[|grants| - 1];
      Blocks(grants, ops) == Blocks(grants[..|grants| - 1], ops) + Tagged(t, ops[t].sent)
  {
  }

  lemma JoinAssociates(a: seq<(nat, Byte)>, b: seq<(nat, Byte)>, c: seq<(nat, Byte)>)
    ensures a + (b + c) == a + b + c
  {
  }

  /** When the last request granted writes, its block grows. */
  lemma BlocksGrow(grants: seq<nat>, ops: seq<Op>, t: nat, op: Op, bytes: Bytes)
    requires t < |ops| && grants != [] && grants[|grants| - 1] == t && t !in grants[..|grants| - 1]
    requires op.sent == ops[t].sent + bytes
    ensures Blocks(grants, ops[t := op]) == Blocks(grants, ops) + Tagged(t, bytes)
  {
    hide Blocks, Tagged;
    var earlier := grants[..|grants| - 1];
    LastBlock(grants, ops);
    LastBlock(grants, ops[t := op]);
    BlocksUntouched(earlier, ops, t, op);
    TaggedJoin(t, ops[t].sent, bytes);
    JoinAssociates(Blocks(earlier, ops), Tagged(t, ops[t].sent), Tagged(t, bytes));
  }

  // ---- Invariants ----

  ghost predicate Granted(phase: Lease.Phase) {
    phase.Holding? || phase.Dropped?
  }

  ghost predicate LeaseInv(s: State) {
    && Lease.Inv(s.lease)
    && |s.lease.threads| == |s.ops|
    && (forall i, j :: 0 <= i < j < |s.grants| ==> s.grants[i] != s.grants[j])
    && (forall t: nat :: t in s.grants <==> t < |s.ops| && Granted(s.lease.threads[t]))
    && (forall t: nat :: Lease.Holds(s.lease, t) ==> s.grants != [] && s.grants[|s.grants| - 1] == t)
  }

  /** A worker that has not been joined has an operation that holds the lease. */
  ghost predicate WorkersInv(s: State) {
    forall t :: 0 <= t < |s.ops| && s.ops[t].PowerOn? ==>
      && Uboot.WorkerInv(s.ops[t].uboot)
      && (s.ops[t].uboot.worker.Running? || s.ops[t].uboot.worker.Finished? ==> Lease.Holds(s.lease, t))
  }

  ghost predicate WireInv(s: State) {
    && Leased(s.log) == Blocks(s.grants, s.ops)
    && (forall t :: 0 <= t < |s.ops| && t !in s.grants ==> s.ops[t].sent == [])
    && (forall t :: 0 <= t < |s.ops| && s.ops[t].ConsoleKey? ==> s.ops[t].sent == [] || s.ops[t].sent == [s.ops[t].key])
  }

  ghost predicate Inv(s: State) {
    LeaseInv(s) && WorkersInv(s) && WireInv(s)
  }

  lemma StartInv(s: State)
    requires IsStart(s)
    ensures Inv(s)
  {
    Lease.InitialInv(|s.ops|);
  }

  /** A step of the lease changes the standing of one thread only: who checks may hold, who drops no longer does. */
  lemma LeaseStepIsLocal(lease: Lease.State, l: Lease.Step, lease': Lease.State, t: nat)
    requires Lease.Next(lease, l, lease') && t < |lease.threads|
    ensures |lease'.threads| == |lease.threads|
    ensures if l.Check? && l.t == t && lease.owner.None? then !Granted(lease.threads[t]) && Granted(lease'.threads[t]) && Lease.Holds(lease', t)
            else Granted(lease'.threads[t]) == Granted(lease.threads[t])
    ensures Lease.Holds(lease', t) && !(l.Check? && l.t == t) ==> Lease.Holds(lease, t)
    ensures Lease.Holds(lease, t) && !Lease.Holds(lease', t) ==> l.Drop? && l.t == t
    ensures l.Check? && l.t == t && lease.owner.Some? ==> !Lease.Holds(lease', t)
  {
  }

  lemma LeaseKeepsThreads(lease: Lease.State, l: Lease.Step, lease': Lease.State)
    requires Lease.Next(lease, l, lease')
    ensures |lease'.threads| == |lease.threads|
    ensures l.Check? ==> l.t < |lease.threads|
  {
  }

  lemma LeaseStepKeepsLeaseInv(s: State, l: Lease.Step, s': State)
    requires LeaseInv(s) && Next(s, OfLease(l), s')
    ensures LeaseInv(s')
  {
    hide Lease.Inv, Lease.Next, Lease.Holds, Granted, HasReturned;
    LeaseKeepsThreads(s.lease, l, s'.lease);
    Lease.StepKeepsInv(s.lease, l, s'.lease);
    forall t: nat | t < |s.ops| {
      LeaseStepIsLocal(s.lease, l, s'.lease, t);
    }
    NoStranger(s.lease);
    NoStranger(s'.lease);
    if s.lease.owner.None? { FreeLeaseHasNoHolder(s.lease); }
    if l.Check? && s.lease.owner.None? {
      assert s'.grants == s.grants + [l.t] && s'.grants[..|s.grants|] == s.grants;
      assert !Granted(s.lease.threads[l.t]) && l.t !in s.grants;
      assert forall t: nat :: t in s'.grants <==> t in s.grants || t == l.t;
    } else {
      assert s'.grants == s.grants;
    }
  }

  lemma NoStranger(lease: Lease.State)
    ensures forall t: nat :: Lease.Holds(lease, t) ==> t < |lease.threads|
  {
  }

  /** A guard is dropped only when its operation has returned, and by then its worker has been joined. */
  lemma LeaseStepKeepsWorkers(s: State, l: Lease.Step, s': State)
    requires |s.lease.threads| == |s.ops| && WorkersInv(s) && Next(s, OfLease(l), s')
    ensures WorkersInv(s')
  {
    hide Lease.Next, Lease.Holds, Uboot.WorkerInv;
    forall t | 0 <= t < |s.ops| && s.ops[t].PowerOn?
      ensures
        s.ops[t].uboot.worker.Running? || s.ops[t].uboot.worker.Finished? ==> Lease.Holds(s'.lease, t)
    {
      LeaseStepIsLocal(s.lease, l, s'.lease, t);
      WorkerInvAtEnd(s.ops[t].uboot);
    }
  }

  lemma NewBlockIsEmpty(grants: seq<nat>, ops: seq<Op>, t: nat)
    requires t < |ops| && ops[t].sent == []
    ensures Blocks(grants + [t], ops) == Blocks(grants, ops)
  {
    hide Blocks;
    var longer := grants + [t];
    LastBlock(longer, ops);
    assert longer[..|longer| - 1] == grants;
    assert Blocks(grants, ops) + [] == Blocks(grants, ops);
  }

  lemma LeaseStepKeepsWire(s: State, l: Lease.Step, s': State)
    requires LeaseInv(s) && WireInv(s) && Next(s, OfLease(l), s')
    ensures WireInv(s')
  {
    if s'.grants != s.grants {
      NotYetGranted(s, l, s');
      NewBlockIsEmpty(s.grants, s.ops, l.t);
    }
    hide LeaseInv, Lease.Next, Blocks, Leased;
  }

  /** The lease's own steps leave the UART alone. */
  lemma LeaseStepKeepsInv(s: State, l: Lease.Step, s': State)
    requires Inv(s) && Next(s, OfLease(l), s')
    ensures Inv(s')
  {
    assert |s.lease.threads| == |s.ops|;
    hide LeaseInv, WorkersInv, WireInv;
    LeaseStepKeepsLeaseInv(s, l, s');
    LeaseStepKeepsWorkers(s, l, s');
    LeaseStepKeepsWire(s, l, s');
  }

  lemma NotYetGranted(s: State, l: Lease.Step, s': State)
    requires LeaseInv(s) && WireInv(s) && Next(s, OfLease(l), s') && s'.grants != s.grants
    ensures l.t < |s.ops| && l.t !in s.grants && s.ops[l.t].sent == []
  {
    LeaseStepIsLocal(s.lease, l, s'.lease, l.t);
  }

  lemma FreeLeaseHasNoHolder(lease: Lease.State)
    requires Lease.Inv(lease) && lease.owner.None?
    ensures forall t: nat :: !Lease.Holds(lease, t)
  {
  }

  lemma WorkerInvAtEnd(u: Uboot.State)
    requires Uboot.WorkerInv(u)
    ensures u.pc.Done? ==> !u.worker.Running? && !u.worker.Finished?
  {
  }

  /** A request that writes is the last one granted. */
  lemma WriteKeepsInv(s: State, t: nat, op: Op, bytes: Bytes, s': State)
    requires Inv(s) && t < |s.ops| && Lease.Holds(s.lease, t)
    requires op.sent == s.ops[t].sent + bytes
    requires op.ConsoleKey? ==> s.ops[t].ConsoleKey? && op.sent == [op.key]
    requires op.PowerOn? ==>
               && s.ops[t].PowerOn? && Uboot.WorkerInv(op.uboot)
    requires s' == s.(ops := s.ops[t := op], log := s.log + [Wrote(t, bytes)])
    ensures Inv(s')
  {
    hide Lease.Inv, Uboot.WorkerInv, Leased, Blocks, Tagged;
    LeasedAppend(s.log, Wrote(t, bytes));
    BlocksGrow(s.grants, s.ops, t, op, bytes);
  }

  /** A step of a power-on that writes nothing may still change the relay. */
  lemma QuietKeepsInv(s: State, t: nat, op: Op, logged: seq<Event>, s': State)
    requires Inv(s) && t < |s.ops| && s.ops[t].PowerOn? && op.PowerOn? && op.sent == s.ops[t].sent
    requires Uboot.WorkerInv(op.uboot)
    requires op.uboot.worker.Running? || op.uboot.worker.Finished? ==> Lease.Holds(s.lease, t)
    requires Leased(s.log + logged) == Leased(s.log)
    requires s' == s.(ops := s.ops[t := op], log := s.log + logged)
    ensures Inv(s')
  {
    hide Lease.Inv, Lease.Holds, Uboot.WorkerInv, Leased, Blocks, Tagged;
    BlocksSame(s.grants, s.ops, t, op);
  }

  lemma LoggingNothing(log: seq<Event>, logged: seq<Event>)
    requires logged == [] || (|logged| == 1 && !logged[0].Wrote?)
    ensures Leased(log + logged) == Leased(log)
  {
    hide Leased;
    if logged == [] {
      assert log + logged == log;
    } else {
      assert logged == [logged[0]];
      LeasedAppend(log, logged[0]);
    }
  }

  lemma PowerOnKeepsInv(s: State, t: nat, u: Uboot.Step, s': State)
    requires Inv(s) && Next(s, OfPowerOn(t, u), s')
    ensures Inv(s')
  {
    hide Lease.Inv, Lease.Holds, LeaseInv, WireInv, Uboot.WorkerInv, Uboot.Next;
    var op := s.ops[t];
    var next := Uboot.Next(op.config, op.uboot, u).value;
    Uboot.WorkerStep(op.config, op.uboot, u, next);
    if u.Transmit? {
      WriteKeepsInv(s, t, s'.ops[t], Transmitted(op, u), s');
    } else {
      WorkerStaysHeld(op, u, next);
      assert op.sent + [] == op.sent;
      LoggingNothing(s.log, Logged(t, op, u));
      QuietKeepsInv(s, t, s'.ops[t], Logged(t, op, u), s');
    }
  }

  /** Only the main thread starts a worker, and only a running worker finishes. */
  lemma WorkerStaysHeld(op: Op, u: Uboot.Step, next: Uboot.State)
    requires op.PowerOn? && Uboot.Next(op.config, op.uboot, u) == Some(next)
    ensures next.worker.Running? || next.worker.Finished? ==>
              IsMainThread(u) || op.uboot.worker.Running? || op.uboot.worker.Finished?
  {
  }

  lemma {:induction false} BlocksSame(grants: seq<nat>, ops: seq<Op>, t: nat, op: Op)
    requires t < |ops| && op.sent == ops[t].sent
    ensures Blocks(grants, ops[t := op]) == Blocks(grants, ops)
  {
    if grants != [] {
      BlocksSame(grants[..|grants| - 1], ops, t, op);
    }
  }

  lemma LoggingKeepsInv(s: State, event: Event, s': State)
    requires Inv(s) && !event.Wrote? && s' == s.(log := s.log + [event])
    ensures Inv(s')
  {
    hide Lease.Inv, Uboot.WorkerInv, Leased, Blocks, Tagged;
    LeasedAppend(s.log, event);
  }

  lemma StepKeepsInv(s: State, step: Step, s': State)
    requires Inv(s) && Next(s, step, s')
    ensures Inv(s')
  {
    hide Inv, Lease.Next, Uboot.Next, Lease.Holds;
    match step
    case OfLease(l) => LeaseStepKeepsInv(s, l, s');
    case Write(t, bytes) => WriteKeepsInv(s, t, s'.ops[t], bytes, s');
    case PressKey(t) => WriteKeepsInv(s, t, s'.ops[t], [s.ops[t].key], s');
    case OfPowerOn(t, u) => PowerOnKeepsInv(s, t, u, s');
    case Switch(t, on) => LoggingKeepsInv(s, RelayChanged(t, on), s');
    case Probe(bytes) => LoggingKeepsInv(s, Probed(bytes), s');
  }

  lemma {:induction false} RunKeepsInv(s: State, steps: seq<Step>, s': State)
    requires Inv(s) && Run(s, steps, s')
    ensures Inv(s')
    decreases |steps|
  {
    if steps != [] {
      var mid: State :| Next(s, steps[0], mid) && Run(mid, steps[1..], s');
      StepKeepsInv(s, steps[0], mid);
      RunKeepsInv(mid, steps[1..], s');
    }
  }

  lemma ReachableInv(s: State)
    requires Reachable(s)
    ensures Inv(s)
  {
    var start: State, steps: seq<Step> :| IsStart(start) && Run(start, steps, s);
    StartInv(start);
    RunKeepsInv(start, steps, s);
  }

  // ---- What the lease buys ----

  /**
   Writes are serialized: without the probes, what went out on the UART is one whole block for each
   request that got the lease, in the order of the grants, and a key typed at the console is one byte.
   */
  lemma WritesAreSerialized(s: State)
    requires Reachable(s)
    ensures Leased(s.log) == Blocks(s.grants, s.ops)
    ensures forall i, j :: 0 <= i < j < |s.grants| ==> s.grants[i] != s.grants[j]
    ensures forall t :: 0 <= t < |s.ops| && s.ops[t].ConsoleKey? ==> |s.ops[t].sent| <= 1
  {
    ReachableInv(s);
  }

  /** The relay is only changed while the request on whose behalf that happens holds the lease, worker or not. */
  lemma RelayChangesUnderLease(s: State, step: Step, s': State, op: nat, on: bool)
    requires Reachable(s) && Next(s, step, s')
    requires |s.log| < |s'.log| && s'.log[|s.log|] == RelayChanged(op, on)
    ensures Lease.Holds(s.lease, op)
    ensures forall t: nat :: Lease.Holds(s.lease, t) ==> t == op
  {
    ReachableInv(s);
  }

  /** A worker that has not been joined keeps its operation's guard alive. */
  lemma NoOrphanedWorker(s: State, t: nat)
    requires Reachable(s) && t < |s.ops| && s.ops[t].PowerOn?
    requires s.ops[t].uboot.worker.Running? || s.ops[t].uboot.worker.Finished?
    ensures Lease.Holds(s.lease, t)
  {
    ReachableInv(s);
  }

  /** Probes are not covered: from any moment at which an operation may write, a probe can come between its writes. */
  lemma ProbesInterleave(s: State, t: nat, first: Bytes, probe: Bytes, second: Bytes)
    requires t < |s.ops| && s.ops[t].Ordinary? && Lease.Holds(s.lease, t)
    ensures exists s': State ::
              && Run(s, [Write(t, first), Probe(probe), Write(t, second)], s')
              && s'.log == s.log + [Wrote(t, first), Probed(probe), Wrote(t, second)]
  {
    var s1 := s.(ops := s.ops[t := Ordinary(s.ops[t].sent + first)], log := s.log + [Wrote(t, first)]);
    var s2 := s1.(log := s1.log + [Probed(probe)]);
    var s3 := s2.(ops := s2.ops[t := Ordinary(s2.ops[t].sent + second)], log := s2.log + [Wrote(t, second)]);
    RunOne(s2, Write(t, second), [], s3, s3);
    assert [Write(t, second)] + [] == [Write(t, second)];
    RunOne(s1, Probe(probe), [Write(t, second)], s2, s3);
    assert [Probe(probe)] + [Write(t, second)] == [Probe(probe), Write(t, second)];
    RunOne(s, Write(t, first), [Probe(probe), Write(t, second)], s1, s3);
    assert [Write(t, first)] + [Probe(probe), Write(t, second)] == [Write(t, first), Probe(probe), Write(t, second)];
  }

  lemma RunOne(s: State, step: Step, rest: seq<Step>, mid: State, s': State)
    requires Next(s, step, mid) && Run(mid, rest, s')
    ensures Run(s, [step] + rest, s')
  {
    assert ([step] + rest)[1..] == rest;
  }
}
