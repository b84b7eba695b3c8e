/**
 Running one external power command: two output pipes under a shared budget, a deadline, and a
 child process that must be reaped. Pipes, child and clock are adversarial.
 */
module PowerCommand {
  import opened Basics

  /** The most output one command may produce on both pipes together. */
  const MAX_OUTPUT := 1024 * 1024

  /** What one successful read returns: at least one byte, at most one buffer. */
  type Burst = s: Bytes | 0 < |s| <= 8192 witness ['.']

  datatype Read = Data(bytes: Burst) | Eof | NotNow | Broken

  /** A pipe, by the answer it gives to each read. */
  type Pipe = nat -> Read

  datatype TryWait = StillRunning | Exited(success: bool) | TryWaitFailed

  /** A command as its environment: elapsed is the time each loop iteration takes beyond its sleep. */
  datatype Process = Process(
    spawns: bool,
    startup: nat,
    pipesUsable: bool,
    stdout: Pipe,
    stderr: Pipe,
    tryWait: nat -> TryWait,
    waitWorks: bool,
    elapsed: nat -> nat
  )

  datatype Output = Output(success: bool, stdout: Bytes, stderr: Bytes)

  datatype ChildEvent = Spawned | GroupSignalled | LeaderKilled | Reaped | ReapFailed

  /** The outcome, the buffers and budget at the end, what happened to the child, and the time taken. */
  datatype Run = Run(
    result: Result<Output>,
    stdout: Bytes,
    stderr: Bytes,
    remaining: nat,
    events: seq<ChildEvent>,
    clock: nat,
    iterations: nat
  )

  predicate Ended(pipe: Pipe, count: nat) {
    count > 0 && (pipe(count - 1).Eof? || Ended(pipe, count - 1))
  }

  /** Everything a pipe hands over in its first count, up to its end. */
  function Delivered(pipe: Pipe, count: nat): Bytes {
    if count == 0 then []
    else if Ended(pipe, count - 1) || !pipe(count - 1).Data? then Delivered(pipe, count - 1)
    else Delivered(pipe, count - 1) + pipe(count - 1).bytes
  }

  lemma {:induction false} DeliveredGrows(pipe: Pipe, count: nat, more: nat)
    requires count <= more
    ensures Delivered(pipe, count) <= Delivered(pipe, more)
    decreases more
  {
    if count < more {
      DeliveredGrows(pipe, count, more - 1);
    }
  }

  /** Once a pipe has ended, what was delivered is everything it will ever deliver. */
  lemma {:induction false} EndedIsComplete(pipe: Pipe, count: nat, more: nat)
    requires Ended(pipe, count) && count <= more
    ensures Ended(pipe, more) && Delivered(pipe, more) == Delivered(pipe, count)
    decreases more
  {
    if count < more {
      EndedIsComplete(pipe, count, more - 1);
    }
  }

  /** Every byte the command ever writes to this pipe, if the pipe ends within some number of reads. */
  ghost predicate IsWholeOutput(pipe: Pipe, bytes: Bytes) {
    exists count: nat :: Ended(pipe, count) && bytes == Delivered(pipe, count)
  }

  lemma WholeOutputIsUnique(pipe: Pipe, a: Bytes, b: Bytes)
    requires IsWholeOutput(pipe, a) && IsWholeOutput(pipe, b)
    ensures a == b
  {
    var m: nat :| Ended(pipe, m) && a == Delivered(pipe, m);
    var n: nat :| Ended(pipe, n) && b == Delivered(pipe, n);
    EndedIsComplete(pipe, Min(m, n), Max(m, n));
  }

  /** The process group is signalled only after the launch and before the leader is reaped. */
  ghost predicate SignalsOnlyUnreaped(events: seq<ChildEvent>) {
    forall i :: 0 <= i < |events| && events[i].GroupSignalled? ==> Spawned in events[..i] && Reaped !in events[..i]
  }

  /** A launched child is reaped exactly once. */
  ghost predicate ReapedOnce(events: seq<ChildEvent>) {
    Spawned in events ==> multiset(events)[Reaped] == 1
  }

  /** The 10 ms sleeps that fit before the deadline. */
  function Sleeps(clock: nat, deadline: nat): nat {
    if clock < deadline then (deadline - clock + 9) / 10 else 0
  }

  /** A sleep that starts before the deadline is one of those that fit. */
  lemma SleepFits(clock: nat, now: nat, deadline: nat, sleeps: nat)
    requires clock + 10 * sleeps <= now < deadline
    ensures sleeps + 1 <= Sleeps(clock, deadline)
  {
  }

  lemma DeliveredStep(pipe: Pipe, count: nat)
    ensures Ended(pipe, count + 1) <==> Ended(pipe, count) || pipe(count).Eof?
    ensures Delivered(pipe, count + 1) ==
            Delivered(pipe, count) + (if !Ended(pipe, count) && pipe(count).Data? then pipe(count).bytes else [])
  {
  }

  /** One read, into a buffer that shares its budget with the other pipe's. */
  method CollectPowerOutput(read: Read, bytes: Bytes, remaining: nat, phase: string)
    returns (eof: Result<bool>, collected: Bytes, left: nat)
    ensures |collected| + left == |bytes| + remaining
    ensures eof.Ok? ==> eof.value == read.Eof? && collected == bytes + (if read.Data? then read.bytes else [])
    ensures eof.Err? ==> collected == bytes
    ensures eof.Err? <==> read.Broken? || (read.Data? && |read.bytes| > remaining)
    ensures eof.Err? ==> eof.error == Error(if read.Broken? then PowerBackendFailed else OutputTruncated, phase)
  {
    collected, left := bytes, remaining;
    match read
    case Eof => eof := Ok(true);
    case NotNow => eof := Ok(false);
    case Broken => eof := Err(Error(PowerBackendFailed, phase));
    case Data(data) =>
      if |data| > remaining {
        return Err(Error(OutputTruncated, phase)), collected, left;
      }
      collected := collected + data;
      left := left - |data|;
      eof := Ok(false);
  }

  /** What holds of the two buffers after so many reads of each pipe. */
  ghost predicate Buffered(p: Process, run: Run, outReads: nat, errReads: nat) {
    && run.stdout == Delivered(p.stdout, outReads)
    && run.stderr == Delivered(p.stderr, errReads)
    && |run.stdout| + |run.stderr| + run.remaining == MAX_OUTPUT
  }

  /** What the two pipes delivered in so many reads of each is more than the budget. */
  ghost predicate TooMuchOutput(p: Process, count: nat) {
    |Delivered(p.stdout, count)| + |Delivered(p.stderr, count)| > MAX_OUTPUT
  }

  /** The i-th read of a pipe that had not ended fails. */
  predicate ReadFails(pipe: Pipe, i: nat) {
    !Ended(pipe, i) && pipe(i).Broken?
  }

  /** Iteration i asks for the exit status, both pipes having ended, and cannot get it. */
  predicate StatusFails(p: Process, i: nat) {
    Ended(p.stdout, i + 1) && Ended(p.stderr, i + 1) && p.tryWait(i).TryWaitFailed?
  }

  /** What fails in iteration i, if anything does. */
  predicate IterationFails(p: Process, i: nat) {
    ReadFails(p.stdout, i) || ReadFails(p.stderr, i) || StatusFails(p, i)
  }

  /** Something other than the deadline or the budget stopped the command in its last of so many iterations, or before or after them. */
  ghost predicate Faulty(p: Process, iterations: nat) {
    || !p.spawns
    || !p.pipesUsable
    || !p.waitWorks
    || (iterations > 0 && IterationFails(p, iterations - 1))
  }

  /** Iteration i reads nothing from either pipe. */
  predicate IsIdle(p: Process, i: nat) {
    Delivered(p.stdout, i + 1) == Delivered(p.stdout, i) && Delivered(p.stderr, i + 1) == Delivered(p.stderr, i)
  }

  /** The time that so many iterations take: each 10 ms longer if it reads nothing. */
  function TimeTaken(p: Process, iterations: nat): nat {
    if iterations == 0 then 0
    else
      TimeTaken(p, iterations - 1) + p.elapsed(iterations - 1) + (if IsIdle(p, iterations - 1) then 10 else 0)
  }

  lemma IdleKeepsBudget(p: Process, before: Run, after: Run, i: nat)
    requires Buffered(p, before, i, i) && Buffered(p, after, i + 1, i + 1)
    ensures before.remaining == after.remaining <==> IsIdle(p, i)
  {
    DeliveredGrows(p.stdout, i, i + 1);
    DeliveredGrows(p.stderr, i, i + 1);
    hide Delivered;
  }

  lemma TimeStep(p: Process, i: nat)
    ensures TimeTaken(p, i + 1) == TimeTaken(p, i) + p.elapsed(i) + (if IsIdle(p, i) then 10 else 0)
  {
  }

  /** One iteration's reads: at most one of each pipe, and none of a pipe that has ended. */
  method ReadPipes(p: Process, i: nat, before: Run, outEof: bool, errEof: bool, phase: string)
    returns (ended: Result<(bool, bool)>, run: Run)
    requires Buffered(p, before, i, i)
    requires outEof == Ended(p.stdout, i) && errEof == Ended(p.stderr, i)
    ensures run == before.(stdout := run.stdout, stderr := run.stderr, remaining := run.remaining)
    ensures run.remaining <= before.remaining
    ensures exists outReads: nat, errReads: nat :: Buffered(p, run, outReads, errReads)
    ensures ended.Ok? ==> Buffered(p, run, i + 1, i + 1)
    ensures ended.Ok? ==> ended.value == (Ended(p.stdout, i + 1), Ended(p.stderr, i + 1))
    ensures ended.Err? ==> ended.error.phase == phase && ended.error.code in {OutputTruncated, PowerBackendFailed}
    ensures ended.Err? && ended.error.code == PowerBackendFailed ==> IterationFails(p, i)
    ensures ended.Err? && ended.error.code == OutputTruncated ==> TooMuchOutput(p, i + 1)
  {
    DeliveredStep(p.stdout, i);
    DeliveredStep(p.stderr, i);
    hide Delivered, Ended;
    run := before;
    var out, err := true, true;
    if !outEof {
      var eof, bytes, left := CollectPowerOutput(p.stdout(i), run.stdout, run.remaining, phase);
      run := run.(stdout := bytes, remaining := left);
      if eof.Err? {
        assert Buffered(p, run, i, i);
        assert p.stdout(i).Data? ==> |Delivered(p.stdout, i + 1)| + |Delivered(p.stderr, i + 1)| > MAX_OUTPUT;
        return Err(eof.error), run;
      }
      out := eof.value;
    }
    assert Buffered(p, run, i + 1, i);
    if !errEof {
      var eof, bytes, left := CollectPowerOutput(p.stderr(i), run.stderr, run.remaining, phase);
      run := run.(stderr := bytes, remaining := left);
      if eof.Err? {
        assert Buffered(p, run, i + 1, i);
        assert p.stderr(i).Data? ==> |Delivered(p.stdout, i + 1)| + |Delivered(p.stderr, i + 1)| > MAX_OUTPUT;
        return Err(eof.error), run;
      }
      err := eof.value;
    }
    assert Buffered(p, run, i + 1, i + 1);
    ended := Ok((out, err));
  }

  lemma FailureIsFault(p: Process, i: nat)
    requires IterationFails(p, i)
    ensures Faulty(p, i + 1)
  {
  }

  lemma BrokenIsFault(p: Process, iterations: nat)
    requires !p.spawns || !p.pipesUsable || !p.waitWorks
    ensures Faulty(p, iterations)
  {
  }

  lemma NoStatusIsFault(p: Process, i: nat)
    requires Ended(p.stdout, i + 1) && Ended(p.stderr, i + 1) && p.tryWait(i).TryWaitFailed?
    ensures Faulty(p, i + 1)
  {
    assert StatusFails(p, i);
  }

  /** How supervision ends: with everything the child wrote and its status, or with an error that has a cause. */
  ghost predicate Concluded(p: Process, run: Run, deadline: nat, phase: string) {
    match run.result
    case Ok(output) =>
      && output.stdout == run.stdout && IsWholeOutput(p.stdout, run.stdout)
      && output.stderr == run.stderr && IsWholeOutput(p.stderr, run.stderr)
      && run.events == [Spawned, Reaped]
      && run.iterations > 0 && p.tryWait(run.iterations - 1) == Exited(output.success)
    case Err(error) =>
      && run.events == [Spawned]
      && error.phase == phase
      && error.code in {CommandTimeout, OutputTruncated, PowerBackendFailed}
      && (error.code == PowerBackendFailed ==> Faulty(p, run.iterations))
      && (error.code == CommandTimeout ==> deadline <= run.clock)
      && (error.code == OutputTruncated ==> TooMuchOutput(p, run.iterations))
  }

  /** One iteration of the supervising loop: it concludes, or consumes budget, or sleeps. */
  method Iterate(p: Process, i: nat, before: Run, outEof: bool, errEof: bool, deadline: nat, phase: string)
    returns (done: bool, run: Run, out: bool, err: bool)
    requires Buffered(p, before, i, i) && outEof == Ended(p.stdout, i) && errEof == Ended(p.stderr, i)
    requires before.result == Err(Error(PowerBackendFailed, phase)) && before.events == [Spawned]
    ensures run.iterations == i + 1 && run.remaining <= before.remaining
    ensures exists outReads: nat, errReads: nat :: Buffered(p, run, outReads, errReads)
    ensures done ==> run.clock == before.clock && Concluded(p, run, deadline, phase)
    ensures !done ==>
              && Buffered(p, run, i + 1, i + 1) && out == Ended(p.stdout, i + 1) && err == Ended(p.stderr, i + 1)
              && run.result == before.result && run.events == before.events
              && before.clock < deadline
              && run.clock == before.clock + p.elapsed(i) + (if IsIdle(p, i) then 10 else 0)
              && (run.remaining == before.remaining <==> IsIdle(p, i))
  {
    hide Delivered, Ended, TooMuchOutput, Faulty, IterationFails, IsIdle;
    out, err := outEof, errEof;
    run := before.(iterations := i + 1);
    assert Buffered(p, run, i, i);
    if run.clock >= deadline {
      run := run.(result := Err(Error(CommandTimeout, phase)));
      assert Buffered(p, run, i, i);
      return true, run, out, err;
    }
    ghost var started := run;
    var ended;
    ended, run := ReadPipes(p, i, run, outEof, errEof, phase);
    if ended.Err? {
      ghost var outReads: nat, errReads: nat :| Buffered(p, run, outReads, errReads);
      if ended.error.code == PowerBackendFailed { FailureIsFault(p, i); }
      run := run.(result := Err(ended.error));
      assert Buffered(p, run, outReads, errReads);
      return true, run, out, err;
    }
    out, err := ended.value.0, ended.value.1;
    IdleKeepsBudget(p, started, run, i);
    if out && err {
      match p.tryWait(i) {
        case Exited(success) =>
          run := run.(result := Ok(Output(success, run.stdout, run.stderr)), events := run.events + [Reaped]);
          assert Buffered(p, run, i + 1, i + 1);
          return true, run, out, err;
        case TryWaitFailed =>
          NoStatusIsFault(p, i);
          return true, run, out, err;
        case StillRunning =>
      }
    }
    var slept := if run.remaining == before.remaining then 10 else 0;
    run := run.(clock := run.clock + slept + p.elapsed(i));
    assert Buffered(p, run, i + 1, i + 1);
    done := false;
  }

  /** The part of the command that supervises the child, from its launch to a result. */
  method Supervise(p: Process, clock: nat, deadline: nat, phase: string) returns (run: Run)
    ensures exists outReads: nat, errReads: nat :: Buffered(p, run, outReads, errReads)
    ensures Concluded(p, run, deadline, phase)
    ensures run.clock == clock + TimeTaken(p, Max(0, run.iterations - 1))
    ensures run.iterations <= MAX_OUTPUT + Sleeps(clock, deadline) + 1
  {
    run := Run(Err(Error(PowerBackendFailed, phase)), [], [], MAX_OUTPUT, [Spawned], clock, 0);
    assert Buffered(p, run, 0, 0);
    assert !Ended(p.stdout, 0) && !Ended(p.stderr, 0);
    assert !p.pipesUsable ==> Concluded(p, run, deadline, phase);
    assert TimeTaken(p, 0) == 0;
    hide Delivered, Ended, Sleeps, Concluded, TimeTaken, IsIdle, Buffered;
    if !p.pipesUsable {
      return;
    }
    var outEof, errEof := false, false;
    var i: nat := 0;
    ghost var sleeps := 0;
    while true
      invariant Buffered(p, run, i, i)
      invariant outEof == Ended(p.stdout, i) && errEof == Ended(p.stderr, i)
      invariant run.result == Err(Error(PowerBackendFailed, phase)) && run.events == [Spawned]
      invariant clock + 10 * sleeps <= run.clock == clock + TimeTaken(p, i)
      invariant run.iterations == i <= MAX_OUTPUT - run.remaining + sleeps
      invariant sleeps <= Sleeps(clock, deadline)
      decreases run.remaining + Max(0, deadline - run.clock)
    {
      ghost var before := run;
      var done;
      done, run, outEof, errEof := Iterate(p, i, run, outEof, errEof, deadline, phase);
      if done {
        return;
      }
      SleepFits(clock, before.clock, deadline, sleeps);
      TimeStep(p, i);
      if IsIdle(p, i) {
        sleeps := sleeps + 1;
      }
      i := i + 1;
    }
  }

  lemma NothingSpawned()
    ensures SignalsOnlyUnreaped([]) && ReapedOnce([])
  {
  }

  lemma ExitedIsReaped()
    ensures SignalsOnlyUnreaped([Spawned, Reaped]) && ReapedOnce([Spawned, Reaped])
  {
  }

  /** After an error the whole process group is killed, and only then is its leader reaped. */
  method KillAndReap(p: Process, failed: Run, phase: string) returns (run: Run)
    requires failed.result.Err? && failed.events == [Spawned]
    ensures run == failed.(events := run.events, result := run.result)
    ensures run.result == if p.waitWorks then failed.result else Err(Error(PowerBackendFailed, phase))
    ensures SignalsOnlyUnreaped(run.events)
    ensures p.waitWorks ==> ReapedOnce(run.events)
    ensures Spawned in run.events && GroupSignalled in run.events
  {
    var killed := [Spawned, GroupSignalled, LeaderKilled];
    assert forall last :: (killed + [last])[..1] == [Spawned];
    if p.waitWorks {
      run := failed.(events := killed + [Reaped]);
    } else {
      run := failed.(events := killed + [ReapFailed], result := Err(Error(PowerBackendFailed, phase)));
    }
  }

  method RunPowerCommand(p: Process, clock: nat, deadline: nat, phase: string) returns (run: Run)
    ensures run.clock == clock + (if run.events == [] then 0 else p.startup + TimeTaken(p, Max(0, run.iterations - 1)))
    ensures |run.stdout| + |run.stderr| + run.remaining == 1048576
    ensures exists outReads: nat, errReads: nat :: Buffered(p, run, outReads, errReads)
    ensures run.result.Ok? ==>
              && run.result.value.stdout == run.stdout && IsWholeOutput(p.stdout, run.stdout)
              && run.result.value.stderr == run.stderr && IsWholeOutput(p.stderr, run.stderr)
              && run.iterations > 0 && p.tryWait(run.iterations - 1) == Exited(run.result.value.success)
    ensures run.result.Err? ==> run.result.error.phase == phase
    ensures run.result.Err? ==> run.result.error.code in {CommandTimeout, OutputTruncated, PowerBackendFailed}
    ensures run.result.Err? && run.result.error.code == PowerBackendFailed ==> Faulty(p, run.iterations)
    ensures deadline <= clock ==> run.events == [] && run.result.Err? && run.result.error.code == CommandTimeout
    ensures run.result.Err? && run.result.error.code == OutputTruncated ==> TooMuchOutput(p, run.iterations)
    ensures run.result.Err? && run.result.error.code == CommandTimeout ==> deadline <= run.clock
    ensures SignalsOnlyUnreaped(run.events)
    ensures p.waitWorks ==> ReapedOnce(run.events)
    ensures Spawned in run.events && run.result.Err? ==> GroupSignalled in run.events
    ensures run.iterations <= 1048576 + Sleeps(clock, deadline) + 1
  {
    run := Run(Err(Error(CommandTimeout, phase)), [], [], MAX_OUTPUT, [], clock, 0);
    assert Buffered(p, run, 0, 0);
    assert !p.spawns ==> Faulty(p, 0);
    hide Delivered, Ended, IsWholeOutput, TooMuchOutput, Faulty, ReapedOnce, SignalsOnlyUnreaped, TimeTaken;
    NothingSpawned();
    if clock >= deadline {
      return;
    }
    if !p.spawns {
      run := run.(result := Err(Error(PowerBackendFailed, phase)));
      assert Buffered(p, run, 0, 0);
      return;
    }
    run := Supervise(p, clock + p.startup, deadline, phase);
    if run.result.Err? {
      ghost var outReads: nat, errReads: nat :| Buffered(p, run, outReads, errReads);
      if !p.waitWorks { BrokenIsFault(p, run.iterations); }
      run := KillAndReap(p, run, phase);
      assert Buffered(p, run, outReads, errReads);
    } else {
      ExitedIsReaped();
    }
  }
}
