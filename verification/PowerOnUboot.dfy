/**
 Power-on straight to a U-Boot prompt: the main thread watches the console while a worker thread
 switches the relay and verifies it. Serial input, the worker and the clock run at their own pace;
 a step is one action of one of them.
 */
module PowerOnUboot {
  import opened Basics
  import opened Serial
  import opened Detector
  import opened Boards
  import opened Operations
  import Relay
  import PowerCommand

  /** How the worker ended: with the result of its relay change, or by a panic. */
  datatype Outcome = Returned(result: Result<Relay.PowerObservation>) | Panicked

  /** The error that joining a worker with this outcome returns, if any. */
  function JoinError(outcome: Outcome): Option<Error> {
    match outcome
    case Returned(Ok(_)) => None
    case Returned(Err(error)) => Some(error)
    case Panicked => Some(Error(PowerBackendFailed, "power_on_uboot"))
  }

  datatype Worker = NotSpawned | Running | Finished(outcome: Outcome) | Joined(outcome: Outcome)

  /** The three waits: for the first evidence, after Enter was sent, and after the interrupt was sent. */
  datatype Stage = First | Entered | Interrupted

  /** Where the main thread stands. */
  datatype Pc =
    | Precheck
    | Arm
    | ReadStart
    | Spawn
    | Check(stage: Stage)
    | Poll(stage: Stage)
    | ReadCursor(stage: Stage)
    | Send(stage: Stage)
    | Collect(boot: Result<BoardState>)
    | Done(result: Result<BoardState>)

  datatype Action = SentEnter | SentInterrupt | VerifiedRelayOn

  /** A poll that ended a wait: the state it accepted, the cursor it read from, the history it saw, and the time. */
  datatype Sighting = Sighting(state: BoardState, cursor: nat, seen: History, when: nat)

  datatype Config = Config(patterns: Patterns, capacity: nat, interrupt: Bytes, timeout: nat, profile: Relay.Profile)

  /**
   The state of the operation. A cursor is kept as the history at the moment it was read, whose
   length it is: armed for the start cursor, resumed for the prompt cursor. log holds the power
   commands: those before asked are not this operation's, those before checked are its first query's,
   and the rest are the worker's. since is the time at which the current wait began.
   */
  datatype State = State(
    pc: Pc,
    worker: Worker,
    joins: nat,
    initial: History,
    armed: History,
    resumed: History,
    history: History,
    clock: nat,
    since: nat,
    deadline: nat,
    sightings: seq<Sighting>,
    sent: seq<(Stage, Bytes)>,
    actions: seq<Action>,
    log: seq<Relay.Call>,
    asked: nat,
    checked: nat
  )

  datatype Step =
    | Receive(input: Bytes)
    | Tick(duration: nat)
    | Issue(call: Relay.Call)
    | Finish(panicked: bool)
    | ReadRelay(calls: seq<Relay.Call>)
    | Advance
    | Look(finished: bool)
    | Transmit(count: nat, ok: bool)

  ghost function Initial(h: History, log: seq<Relay.Call>): State {
    State(Precheck, NotSpawned, 0, h, h, h, h, 0, 0, 0, [], [], [], log, |log|, |log|)
  }

  function Message(c: Config, stage: Stage): Bytes {
    if stage.Entered? then ['\r'] else c.interrupt
  }

  predicate Accepts(stage: Stage, state: BoardState) {
    state == UbootPrompt || (stage.First? && state == UbootCountdown)
  }

  /** What the state after a step is; steps that cannot be taken now give nothing. */
  ghost function Next(c: Config, s: State, step: Step): Option<State> {
    match step
    case Receive(input) => Some(s.(history := s.history.Append(input)))
    case Tick(duration) => Some(s.(clock := s.clock + duration))
    case Issue(call) => if s.worker.Running? && IsNext(c, s, call.request) then Some(s.(log := s.log + [call])) else None
    case Finish(panicked) => if s.worker.Running? then WorkerEnded(c, s, panicked) else None
    case ReadRelay(calls) => if s.pc.Precheck? then RelayRead(c, s, calls) else None
    case Advance => Advanced(c, s)
    case Look(finished) => if s.pc.Check? then Looked(s, finished) else None
    case Transmit(count, ok) => if s.pc.Send? then Transmitted(c, s, count, ok) else None
  }

  /** The worker panics at any time, or returns when its relay change is complete. */
  ghost function WorkerEnded(c: Config, s: State, panicked: bool): Option<State> {
    if panicked then Some(s.(worker := Finished(Panicked)))
    else if s.checked <= |s.log| && Relay.Segment(c.profile, s.log[..s.checked], s.log, true) then
      Some(s.(worker := Finished(Returned(Relay.Switch(c.profile, s.log, s.checked, true).result))))
    else None
  }

  ghost function RelayRead(c: Config, s: State, calls: seq<Relay.Call>): Option<State> {
    var log := s.log + calls;
    if !Relay.Queried(c.profile, s.log, log) then None
    else
      var relay := Relay.Query(c.profile, log, |s.log|).result;
      var read := s.(log := log, checked := |log|);
      if relay.Err? then Some(read.(pc := Done(Err(relay.error))))
      else if relay.value.state == Relay.On then
        Some(read.(pc := Done(Err(Error(PowerStateUnverified, "power_on_uboot")))))
      else Some(read.(pc := Arm))
  }

  ghost function Looked(s: State, finished: bool): Option<State>
    requires s.pc.Check?
  {
    if !finished then Some(s.(pc := Poll(s.pc.stage)))
    else if !s.worker.Finished? then None
    else
      var error := JoinError(s.worker.outcome);
      Some(Join(s).(pc := if error.Some? then Collect(Err(error.value)) else Poll(s.pc.stage)))
  }

  ghost function Join(s: State): State
    requires s.worker.Finished?
  {
    s.(worker := Joined(s.worker.outcome), joins := s.joins + 1)
  }

  ghost function Transmitted(c: Config, s: State, count: nat, ok: bool): Option<State>
    requires s.pc.Send?
  {
    var message := Message(c, s.pc.stage);
    if count > |message| || (ok && count < |message|) then None
    else
      var out := s.(sent := s.sent + [(s.pc.stage, message[..count])]);
      if !ok then Some(out.(pc := Collect(Err(Error(SerialDisconnected, "serial_write")))))
      else
        Some(out.(actions := s.actions + [Report(s.pc.stage)],
                  since := s.clock, deadline := s.clock + 10000, pc := Check(s.pc.stage)))
  }

  /** How sending an answer is reported. */
  function Report(stage: Stage): Action {
    if stage.Entered? then SentEnter else SentInterrupt
  }

  /** The worker's next command, which the answers so far decide. */
  ghost predicate IsNext(c: Config, s: State, request: Relay.Request) {
    && s.checked <= |s.log|
    && var requests := Relay.Switch(c.profile, s.log, s.checked, true).requests;
       |s.log| - s.checked < |requests| && requests[|s.log| - s.checked] == request
  }

  /** The steps of the main thread that leave nothing to chance. */
  ghost function Advanced(c: Config, s: State): Option<State> {
    match s.pc
    case Arm => Some(s.(history := s.history.Mark(), pc := ReadStart))
    case ReadStart => Some(s.(armed := s.history, pc := Spawn))
    case Spawn => Some(s.(worker := Running, since := s.clock, deadline := s.clock + c.timeout, pc := Check(First)))
    case Poll(stage) => Some(Polled(c, s, stage))
    case ReadCursor(stage) => Some(s.(resumed := s.history, pc := Send(stage)))
    case Collect(boot) => Collected(s, boot)
    case _ => None
  }

  ghost function Polled(c: Config, s: State, stage: Stage): State {
    var cursor := |(if stage.First? then s.armed else s.resumed).bytes|;
    var state := Observe(c.patterns, CursorWindow(s.history, c.capacity, cursor)).state;
    if Accepts(stage, state) then
      var found := s.(sightings := s.sightings + [Sighting(state, cursor, s.history, s.clock)]);
      if !stage.First? then found.(pc := Collect(Ok(state)))
      else found.(pc := ReadCursor(if state == UbootPrompt then Entered else Interrupted))
    else if s.clock >= s.deadline then s.(pc := Collect(Err(Error(StateTimeout, "state_wait"))))
    else s.(pc := Check(stage))
  }

  ghost function Collected(s: State, boot: Result<BoardState>): Option<State> {
    if s.worker.Joined? then Some(s.(actions := s.actions + [VerifiedRelayOn], pc := Done(boot)))
    else if s.worker.Finished? then
      var error := JoinError(s.worker.outcome);
      if error.Some? then Some(Join(s).(pc := Done(Err(error.value))))
      else Some(Join(s).(actions := s.actions + [VerifiedRelayOn], pc := Done(boot)))
    else None
  }

  ghost function Run(c: Config, s: State, steps: seq<Step>): Option<State>
    decreases |steps|
  {
    if steps == [] then Some(s)
    else
      match Next(c, s, steps[0])
      case None => None
      case Some(next) => Run(c, next, steps[1..])
  }

  ghost predicate Reachable(c: Config, h: History, s: State) {
    h.Valid() && exists log: seq<Relay.Call>, steps: seq<Step> :: Run(c, Initial(h, log), steps) == Some(s)
  }

  // ---- Invariants ----

  /** The worker and the main thread. */
  ghost predicate WorkerInv(s: State) {
    && s.joins == (if s.worker.Joined? then 1 else 0)
    && (s.pc in {Precheck, Arm, ReadStart, Spawn} ==> s.worker.NotSpawned?)
    && (s.worker.NotSpawned? ==>
          s.pc in {Precheck, Arm, ReadStart, Spawn} || (s.pc.Done? && s.pc.result.Err?))
    && (s.pc.Done? ==> s.worker.NotSpawned? || s.worker.Joined?)
    && (s.worker.Joined? && JoinError(s.worker.outcome).Some? ==>
          var result := Err(JoinError(s.worker.outcome).value);
          s.pc == Collect(result) || s.pc == Done(result))
  }

  ghost predicate InStage(s: State, stage: Stage) {
    (s.pc.Check? || s.pc.Poll? || s.pc.ReadCursor? || s.pc.Send?) && s.pc.stage == stage
  }

  /** The prompt cursor has been read. */
  ghost predicate Resumed(s: State) {
    ((s.pc.Check? || s.pc.Poll? || s.pc.Send?) && s.pc.stage != First) || |s.sightings| == 2
  }

  ghost predicate Succeeds(s: State) {
    (s.pc.Collect? && s.pc.boot.Ok?) || (s.pc.Done? && s.pc.result.Ok?)
  }

  /** The histories that the operation remembers, in order. */
  ghost predicate HistoryInv(c: Config, s: State) {
    && Extends(s.initial, s.history)
    && Extends(s.initial, s.armed)
    && Extends(s.armed, s.history)
    && (s.pc.ReadStart? || s.pc.Spawn? ==> s.initial.generation < s.history.generation)
    && (s.pc.Spawn? || !s.worker.NotSpawned? ==> s.initial.generation < s.armed.generation)
    && (forall i :: 0 <= i < |s.sightings| ==>
          && Extends(s.sightings[i].seen, s.history)
          && s.sightings[i].state == Observe(c.patterns, CursorWindow(s.sightings[i].seen, c.capacity, s.sightings[i].cursor)).state)
  }

  /** What was seen, and when. */
  ghost predicate SightingInv(c: Config, s: State) {
    && |s.sightings| <= 2
    && (s.pc.ReadCursor? || s.pc.Send? ==> s.pc.stage != First)
    && (s.worker.NotSpawned? || InStage(s, First) ==> s.sightings == [])
    && (|s.sightings| >= 1 ==>
          && Accepts(First, s.sightings[0].state)
          && s.sightings[0].cursor == |s.armed.bytes|
          && Extends(s.armed, s.sightings[0].seen))
    && (InStage(s, Entered) ==> |s.sightings| == 1 && s.sightings[0].state == UbootPrompt)
    && (InStage(s, Interrupted) ==> |s.sightings| == 1 && s.sightings[0].state == UbootCountdown)
    && (Resumed(s) ==>
          && |s.sightings| >= 1
          && Extends(s.sightings[0].seen, s.resumed)
          && Extends(s.resumed, s.history))
    && (|s.sightings| == 2 ==>
          && s.sightings[1].state == UbootPrompt
          && s.sightings[1].cursor == |s.resumed.bytes|
          && Extends(s.resumed, s.sightings[1].seen))
    && (Succeeds(s) ==> |s.sightings| == 2 && (s.pc == Collect(Ok(UbootPrompt)) || s.pc == Done(Ok(UbootPrompt))))
  }

  /** How the main thread answers what it saw first. */
  function Answer(s: State): Stage
    requires s.sightings != []
  {
    if s.sightings[0].state == UbootPrompt then Entered else Interrupted
  }

  /** Nothing has been sent yet. */
  ghost predicate Silent(s: State) {
    s.sightings == [] || s.pc.ReadCursor? || s.pc.Send?
  }

  /** The answer has been sent, whole. */
  ghost predicate Answered(s: State) {
    ((s.pc.Check? || s.pc.Poll?) && s.pc.stage != First) || Succeeds(s)
  }

  /** What was sent and reported: only the answer to what was seen first. */
  ghost predicate ReportInv(c: Config, s: State) {
    && (Silent(s) ==> s.sent == [])
    && (Silent(s) && !s.pc.Done? ==> s.actions == [])
    && (Silent(s) ==> SentEnter !in s.actions && SentInterrupt !in s.actions)
    && (Answered(s) ==>
          && s.sightings != []
          && s.sent == [(Answer(s), Message(c, Answer(s)))]
          && s.actions == [Report(Answer(s))] + (if s.pc.Done? then [VerifiedRelayOn] else []))
    && (s.sightings != [] && s.sightings[0].state == UbootPrompt ==>
          SentInterrupt !in s.actions && forall i :: 0 <= i < |s.sent| ==> s.sent[i].0 == Entered)
    && (s.sightings != [] && s.sightings[0].state == UbootCountdown ==>
          SentEnter !in s.actions && forall i :: 0 <= i < |s.sent| ==> s.sent[i].0 == Interrupted)
  }

  /** The power commands: a query that did not read the relay on, and then those of one relay change. */
  ghost predicate RelayInv(c: Config, s: State) {
    && s.asked <= s.checked <= |s.log|
    && (s.pc.Precheck? ==> s.asked == s.checked)
    && (s.worker.NotSpawned? ==> s.checked == |s.log|)
    && (!s.pc.Precheck? && !(s.pc.Done? && s.worker.NotSpawned?) ==> ReadNotOn(c, s))
    && (s.pc.Done? && s.worker.NotSpawned? ==> Refused(c, s, s.pc.result))
    && (s.worker.Running? ==> Underway(c, s))
    && (s.worker.Finished? || s.worker.Joined? ==> s.worker.outcome.Panicked? || Changed(c, s, s.worker.outcome.result))
  }

  ghost predicate ReadNotOn(c: Config, s: State)
    requires s.asked <= s.checked <= |s.log|
  {
    var query := Relay.Query(c.profile, s.log[..s.checked], s.asked).result;
    && Relay.Queried(c.profile, s.log[..s.asked], s.log[..s.checked])
    && query.Ok? && query.value.state != Relay.On
  }

  /** The first query failed, or read the relay on. */
  ghost predicate Refused(c: Config, s: State, result: Result<BoardState>)
    requires s.asked <= s.checked <= |s.log|
  {
    var query := Relay.Query(c.profile, s.log[..s.checked], s.asked).result;
    && Relay.Queried(c.profile, s.log[..s.asked], s.log[..s.checked])
    && result.Err?
    && if query.Err? then result.error == query.error
       else query.value.state == Relay.On && result.error == Error(PowerStateUnverified, "power_on_uboot")
  }

  /** The worker has issued the first commands of its relay change. */
  ghost predicate Underway(c: Config, s: State)
    requires s.checked <= |s.log|
  {
    var requests := Relay.Switch(c.profile, s.log, s.checked, true).requests;
    && |s.log| - s.checked <= |requests|
    && forall k :: s.checked <= k < |s.log| ==> s.log[k].request == requests[k - s.checked]
  }

  ghost predicate Changed(c: Config, s: State, result: Result<Relay.PowerObservation>)
    requires s.checked <= |s.log|
  {
    && Relay.Segment(c.profile, s.log[..s.checked], s.log, true)
    && result == Relay.Switch(c.profile, s.log, s.checked, true).result
  }

  /** The first wait lasts until the operation's timeout, the second ten seconds after the answer was sent. */
  ghost predicate TimedOut(c: Config, s: State) {
    && |s.sightings| <= 1
    && s.since + (if s.sightings == [] then c.timeout else 10000) <= s.clock
    && (s.sightings != [] ==> s.sightings[0].when + 10000 <= s.clock)
  }

  /** Why the boot side failed. */
  ghost predicate BootFailed(c: Config, s: State, error: Error) {
    || (s.worker.Joined? && JoinError(s.worker.outcome) == Some(error))
    || (error == Error(StateTimeout, "state_wait") && TimedOut(c, s))
    || (error == Error(SerialDisconnected, "serial_write")
        && |s.sightings| == 1 && |s.sent| == 1 && s.sent[0].1 <= Message(c, s.sent[0].0))
  }

  ghost predicate TimingInv(c: Config, s: State) {
    && s.since <= s.clock
    && (InStage(s, First) ==> s.deadline == s.since + c.timeout)
    && ((s.pc.Check? || s.pc.Poll?) && s.pc.stage != First ==> s.deadline == s.since + 10000)
    && (s.sightings != [] ==> s.sightings[0].when <= s.clock)
    && (s.sightings != [] && (s.pc.Check? || s.pc.Poll?) ==> s.sightings[0].when <= s.since)
    && (s.pc.Collect? && s.pc.boot.Err? ==> BootFailed(c, s, s.pc.boot.error))
    && (s.pc.Done? && s.pc.result.Err? && s.worker.Joined? ==> BootFailed(c, s, s.pc.result.error))
  }

  ghost predicate Inv(c: Config, s: State) {
    && WorkerInv(s) && HistoryInv(c, s) && SightingInv(c, s) && ReportInv(c, s) && RelayInv(c, s) && TimingInv(c, s)
  }

  /** Steps of the clock and the worker, and the first query. */
  predicate IsOther(step: Step) {
    step.Tick? || step.Issue? || step.Finish? || step.ReadRelay?
  }

  /** They leave the evidence and the console alone. */
  ghost predicate TouchesLittle(s: State, s': State) {
    && s' == s.(clock := s'.clock, worker := s'.worker, log := s'.log, checked := s'.checked, pc := s'.pc)
    && s.clock <= s'.clock
    && (s'.worker == s.worker || (s.worker.Running? && s'.worker.Finished?))
    && (s'.pc == s.pc || (s.pc.Precheck? && (s'.pc.Arm? || (s'.pc.Done? && s'.pc.result.Err?))))
  }

  lemma OthersTouchLittle(c: Config, s: State, step: Step, s': State)
    requires IsOther(step) && Next(c, s, step) == Some(s')
    ensures TouchesLittle(s, s')
  {
    hide Relay.Query, Relay.Queried, Relay.Segment, Relay.Switch, IsNext;
  }

  lemma WorkerStep(c: Config, s: State, step: Step, s': State)
    requires WorkerInv(s) && Next(c, s, step) == Some(s')
    ensures WorkerInv(s')
  {
    hide WorkerInv, Looked, Advanced, Transmitted, WorkerEnded, RelayRead, IsNext, Observe, CursorWindow;
    match step
    case Receive(_) => OthersKeepWorker(s, s');
    case Advance => AdvanceKeepsWorker(c, s, s');
    case Look(finished) => LookKeepsWorker(s, finished, s');
    case Transmit(count, ok) => TransmitKeepsWorker(c, s, count, ok, s');
    case _ =>
      OthersTouchLittle(c, s, step, s');
      OthersKeepWorker(s, s'.(history := s'.history));
  }

  lemma OthersKeepWorker(s: State, s': State)
    requires WorkerInv(s) && TouchesLittle(s, s'.(history := s.history))
    ensures WorkerInv(s')
  {
  }

  lemma AdvanceKeepsWorker(c: Config, s: State, s': State)
    requires WorkerInv(s) && Advanced(c, s) == Some(s')
    ensures WorkerInv(s')
  {
    hide Observe, CursorWindow;
  }

  lemma LookKeepsWorker(s: State, finished: bool, s': State)
    requires WorkerInv(s) && s.pc.Check? && Looked(s, finished) == Some(s')
    ensures WorkerInv(s')
  {
  }

  lemma TransmitKeepsWorker(c: Config, s: State, count: nat, ok: bool, s': State)
    requires WorkerInv(s) && s.pc.Send? && Transmitted(c, s, count, ok) == Some(s')
    ensures WorkerInv(s')
  {
  }

  lemma HistoryStep(c: Config, s: State, step: Step, s': State)
    requires WorkerInv(s) && HistoryInv(c, s) && Next(c, s, step) == Some(s')
    ensures HistoryInv(c, s')
  {
    if IsOther(step) {
      OthersTouchLittle(c, s, step, s');
      hide Next, Observe, CursorWindow, Extends;
    } else {
      MainKeepsHistory(c, s, step, s');
    }
  }

  lemma MainKeepsHistory(c: Config, s: State, step: Step, s': State)
    requires WorkerInv(s) && HistoryInv(c, s) && !IsOther(step) && Next(c, s, step) == Some(s')
    ensures HistoryInv(c, s')
  {
    hide Observe, CursorWindow, Extends, Accepts, IsNext, WorkerEnded, RelayRead, JoinError;
    ExtendsValid(s.initial, s.history);
    ExtendsItself(s.history);
    match step
    case Receive(input) =>
      AppendExtends(s.history, input);
      HistoryGrows(c, s, s');
    case Advance =>
      if s.pc.Arm? {
        MarkExtends(s.history);
        ExtendsGeneration(s.initial, s.history);
        HistoryGrows(c, s, s');
      }
    case _ =>
  }

  lemma ExtendsValid(h: History, later: History)
    requires Extends(h, later)
    ensures h.Valid() && later.Valid()
  {
  }

  lemma MarkExtends(h: History)
    requires h.Valid()
    ensures Extends(h, h.Mark())
  {
  }

  lemma HistoryGrows(c: Config, s: State, s': State)
    requires HistoryInv(c, s) && Extends(s.history, s'.history)
    ensures Extends(s.initial, s'.history) && Extends(s.armed, s'.history)
    ensures forall i :: 0 <= i < |s.sightings| ==> Extends(s.sightings[i].seen, s'.history)
  {
    hide Extends;
    ExtendsTransitively(s.initial, s.history, s'.history);
    ExtendsTransitively(s.armed, s.history, s'.history);
    forall i | 0 <= i < |s.sightings|
      ensures Extends(s.sightings[i].seen, s'.history)
    {
      ExtendsTransitively(s.sightings[i].seen, s.history, s'.history);
    }
  }

  /** Bytes that arrive change nothing but the history. */
  lemma ReceiveKeepsSightings(c: Config, s: State, input: Bytes, s': State)
    requires SightingInv(c, s) && s.history.Valid() && s' == s.(history := s.history.Append(input))
    ensures SightingInv(c, s')
  {
    hide Extends;
    AppendExtends(s.history, input);
    if Resumed(s) { ExtendsTransitively(s.resumed, s.history, s'.history); }
  }

  lemma PollKeepsSightings(c: Config, s: State, stage: Stage)
    requires WorkerInv(s) && SightingInv(c, s) && s.pc == Poll(stage)
    requires Extends(s.armed, s.history) && Extends(s.history, s.history)
    ensures SightingInv(c, Polled(c, s, stage))
  {
    hide Observe, CursorWindow, Extends;
  }

  lemma AdvanceKeepsSightings(c: Config, s: State, s': State)
    requires WorkerInv(s) && SightingInv(c, s) && !s.pc.Poll? && Advanced(c, s) == Some(s')
    requires Extends(s.armed, s.history) && Extends(s.history, s.history)
    requires forall i :: 0 <= i < |s.sightings| ==> Extends(s.sightings[i].seen, s.history)
    ensures SightingInv(c, s')
  {
    hide Extends, Polled;
  }

  lemma LookKeepsSightings(c: Config, s: State, finished: bool, s': State)
    requires WorkerInv(s) && SightingInv(c, s) && s.pc.Check? && Looked(s, finished) == Some(s')
    ensures SightingInv(c, s')
  {
    hide Extends;
  }

  lemma TransmitKeepsSightings(c: Config, s: State, count: nat, ok: bool, s': State)
    requires SightingInv(c, s) && WorkerInv(s) && s.pc.Send? && Transmitted(c, s, count, ok) == Some(s')
    ensures SightingInv(c, s')
  {
    hide Extends;
  }

  lemma SightingStep(c: Config, s: State, step: Step, s': State)
    requires Inv(c, s) && Next(c, s, step) == Some(s')
    ensures SightingInv(c, s')
  {
    ExtendsValid(s.initial, s.history);
    ExtendsItself(s.history);
    hide Observe, CursorWindow, Extends, SightingInv, WorkerEnded, RelayRead, Looked, Transmitted, Polled, IsNext;
    match step
    case Receive(input) => ReceiveKeepsSightings(c, s, input, s');
    case Advance =>
      if s.pc.Poll? { PollKeepsSightings(c, s, s.pc.stage); } else { AdvanceKeepsSightings(c, s, s'); }
    case Look(finished) => LookKeepsSightings(c, s, finished, s');
    case Transmit(count, ok) => TransmitKeepsSightings(c, s, count, ok, s');
    case _ =>
      OthersTouchLittle(c, s, step, s');
      OthersKeepSightings(c, s, s');
  }

  lemma OthersKeepSightings(c: Config, s: State, s': State)
    requires WorkerInv(s) && SightingInv(c, s) && TouchesLittle(s, s')
    ensures SightingInv(c, s')
  {
    hide Extends;
  }

  lemma TransmitKeepsReport(c: Config, s: State, count: nat, ok: bool, s': State)
    requires SightingInv(c, s) && ReportInv(c, s) && s.pc.Send? && Transmitted(c, s, count, ok) == Some(s')
    ensures ReportInv(c, s')
  {
    hide Extends;
    var message := Message(c, s.pc.stage);
    assert message[..|message|] == message;
  }

  lemma PollKeepsReport(c: Config, s: State, stage: Stage)
    requires WorkerInv(s) && SightingInv(c, s) && ReportInv(c, s) && s.pc == Poll(stage)
    ensures ReportInv(c, Polled(c, s, stage))
  {
    hide Observe, CursorWindow, Extends;
  }

  lemma AdvanceKeepsReport(c: Config, s: State, s': State)
    requires WorkerInv(s) && SightingInv(c, s) && ReportInv(c, s)
    requires !s.pc.Poll? && Advanced(c, s) == Some(s')
    ensures ReportInv(c, s')
  {
    hide Extends, Polled;
  }

  lemma LookKeepsReport(c: Config, s: State, finished: bool, s': State)
    requires WorkerInv(s) && SightingInv(c, s) && ReportInv(c, s) && s.pc.Check? && Looked(s, finished) == Some(s')
    ensures ReportInv(c, s')
  {
    hide Extends;
  }

  lemma OthersKeepReport(c: Config, s: State, s': State)
    requires WorkerInv(s) && SightingInv(c, s) && ReportInv(c, s) && TouchesLittle(s, s')
    ensures ReportInv(c, s')
  {
    hide Extends;
  }

  lemma ReportStep(c: Config, s: State, step: Step, s': State)
    requires Inv(c, s) && Next(c, s, step) == Some(s')
    ensures ReportInv(c, s')
  {
    hide SightingInv, HistoryInv, RelayInv, WorkerInv, WorkerEnded, RelayRead, Looked, Transmitted, Polled, IsNext;
    match step
    case Receive(_) =>
    case Advance =>
      if s.pc.Poll? { PollKeepsReport(c, s, s.pc.stage); } else { AdvanceKeepsReport(c, s, s'); }
    case Look(finished) => LookKeepsReport(c, s, finished, s');
    case Transmit(count, ok) => TransmitKeepsReport(c, s, count, ok, s');
    case _ =>
      OthersTouchLittle(c, s, step, s');
      OthersKeepReport(c, s, s');
  }

  /** The main thread, once past its query, leaves the power commands to the worker. */
  ghost predicate LeavesRelay(s: State, s': State) {
    && s'.log == s.log && s'.asked == s.asked && s'.checked == s.checked
    && s.pc.Precheck? == s'.pc.Precheck?
    && (s.pc.Done? ==> s'.pc == s.pc)
    && (s'.pc.Done? ==> s.pc.Done? || s.worker.Joined? || s.worker.Finished?)
    && (s'.worker == s.worker
        || (s.pc.Spawn? && s'.worker.Running?)
        || (s.worker.Finished? && s'.worker == Joined(s.worker.outcome)))
  }

  lemma MainLeavesRelay(c: Config, s: State, step: Step, s': State)
    requires !IsOther(step) && Next(c, s, step) == Some(s')
    ensures LeavesRelay(s, s')
  {
    hide Observe, CursorWindow, JoinError;
  }

  lemma LeavingKeepsRelay(c: Config, s: State, s': State)
    requires WorkerInv(s) && RelayInv(c, s) && LeavesRelay(s, s')
    ensures RelayInv(c, s')
  {
    hide Relay.Query, Relay.Switch, Relay.Queried, Relay.Segment;
  }

  lemma EndKeepsRelay(c: Config, s: State, panicked: bool, s': State)
    requires RelayInv(c, s) && s.worker.Running? && WorkerEnded(c, s, panicked) == Some(s')
    ensures RelayInv(c, s')
  {
    hide Relay.Query, Relay.Switch, Relay.Queried, Relay.Segment;
  }

  lemma ReadKeepsRelay(c: Config, s: State, calls: seq<Relay.Call>, s': State)
    requires WorkerInv(s) && RelayInv(c, s) && s.pc.Precheck? && RelayRead(c, s, calls) == Some(s')
    ensures RelayInv(c, s')
  {
    hide Relay.Query, Relay.Switch, Relay.Queried, Relay.Segment;
    assert s.log[..s.asked] == s.log;
    assert s'.log[..s.asked] == s.log && s'.log[..s'.checked] == s'.log;
  }

  lemma IssueKeepsUnderway(c: Config, s: State, call: Relay.Call, s': State)
    requires s.checked <= |s.log| && Underway(c, s) && IsNext(c, s, call.request) && s' == s.(log := s.log + [call])
    ensures Underway(c, s')
  {
    hide Relay.Query, Relay.Switch;
    Relay.SwitchGrows(c.profile, s.log, call, s.checked, true);
    var n := |s.log| - s.checked;
    var before := Relay.Switch(c.profile, s.log, s.checked, true).requests;
    var after := Relay.Switch(c.profile, s'.log, s.checked, true).requests;
    forall k | s.checked <= k < |s'.log|
      ensures s'.log[k].request == after[k - s.checked]
    {
      assert after[..n + 1][k - s.checked] == before[..n + 1][k - s.checked];
    }
  }

  lemma IssueKeepsRelay(c: Config, s: State, call: Relay.Call, s': State)
    requires WorkerInv(s) && RelayInv(c, s) && s.worker.Running? && IsNext(c, s, call.request)
    requires s' == s.(log := s.log + [call])
    ensures RelayInv(c, s')
  {
    IssueKeepsUnderway(c, s, call, s');
    hide Relay.Query, Relay.Switch, Relay.Queried, Relay.Segment, IsNext, Underway;
    assert s'.log[..s.checked] == s.log[..s.checked] && s'.log[..s.asked] == s.log[..s.asked];
  }

  lemma TickKeepsRelay(c: Config, s: State, duration: nat)
    requires RelayInv(c, s)
    ensures RelayInv(c, s.(clock := s.clock + duration))
  {
    hide Relay.Query, Relay.Switch, Relay.Queried, Relay.Segment;
  }

  lemma RelayStep(c: Config, s: State, step: Step, s': State)
    requires WorkerInv(s) && RelayInv(c, s) && Next(c, s, step) == Some(s')
    ensures RelayInv(c, s')
  {
    hide WorkerInv, RelayInv, RelayRead, WorkerEnded, Looked, Advanced, Transmitted, LeavesRelay, IsNext;
    match step
    case Issue(call) => IssueKeepsRelay(c, s, call, s');
    case ReadRelay(calls) => ReadKeepsRelay(c, s, calls, s');
    case Finish(panicked) => EndKeepsRelay(c, s, panicked, s');
    case Tick(duration) => TickKeepsRelay(c, s, duration);
    case _ =>
      MainLeavesRelay(c, s, step, s');
      LeavingKeepsRelay(c, s, s');
  }

  lemma PollKeepsTiming(c: Config, s: State, stage: Stage)
    requires WorkerInv(s) && SightingInv(c, s) && TimingInv(c, s) && s.pc == Poll(stage)
    ensures TimingInv(c, Polled(c, s, stage))
  {
    hide Observe, CursorWindow, Extends;
  }

  lemma AdvanceKeepsTiming(c: Config, s: State, s': State)
    requires WorkerInv(s) && SightingInv(c, s) && TimingInv(c, s) && !s.pc.Poll? && Advanced(c, s) == Some(s')
    ensures TimingInv(c, s')
  {
    hide Extends, Polled;
  }

  lemma LookKeepsTiming(c: Config, s: State, finished: bool, s': State)
    requires WorkerInv(s) && SightingInv(c, s) && TimingInv(c, s) && s.pc.Check? && Looked(s, finished) == Some(s')
    ensures TimingInv(c, s')
  {
    hide Extends;
  }

  lemma TransmitKeepsTiming(c: Config, s: State, count: nat, ok: bool, s': State)
    requires SightingInv(c, s) && ReportInv(c, s) && TimingInv(c, s)
    requires s.pc.Send? && Transmitted(c, s, count, ok) == Some(s')
    ensures TimingInv(c, s')
  {
    hide Extends;
  }

  lemma OthersKeepTiming(c: Config, s: State, s': State)
    requires WorkerInv(s) && TimingInv(c, s) && TouchesLittle(s, s'.(history := s.history))
    ensures TimingInv(c, s')
  {
  }

  lemma TimingStep(c: Config, s: State, step: Step, s': State)
    requires Inv(c, s) && Next(c, s, step) == Some(s')
    ensures TimingInv(c, s')
  {
    hide SightingInv, HistoryInv, RelayInv, WorkerInv, ReportInv, TimingInv;
    hide WorkerEnded, RelayRead, Looked, Transmitted, Polled, IsNext, Observe, CursorWindow;
    match step
    case Receive(_) => OthersKeepTiming(c, s, s');
    case Advance =>
      if s.pc.Poll? { PollKeepsTiming(c, s, s.pc.stage); } else { AdvanceKeepsTiming(c, s, s'); }
    case Look(finished) => LookKeepsTiming(c, s, finished, s');
    case Transmit(count, ok) => TransmitKeepsTiming(c, s, count, ok, s');
    case _ =>
      OthersTouchLittle(c, s, step, s');
      OthersKeepTiming(c, s, s');
  }

  lemma {:induction false} RunKeepsInv(c: Config, s: State, steps: seq<Step>, s': State)
    requires Inv(c, s) && Run(c, s, steps) == Some(s')
    ensures Inv(c, s')
    decreases |steps|
  {
    if steps != [] {
      var next := Next(c, s, steps[0]).value;
      WorkerStep(c, s, steps[0], next);
      HistoryStep(c, s, steps[0], next);
      SightingStep(c, s, steps[0], next);
      ReportStep(c, s, steps[0], next);
      RelayStep(c, s, steps[0], next);
      TimingStep(c, s, steps[0], next);
      RunKeepsInv(c, next, steps[1..], s');
    }
  }

  lemma ReachableInv(c: Config, h: History, s: State)
    requires Reachable(c, h, s)
    ensures Inv(c, s) && s.initial == h
  {
    ExtendsItself(h);
    var log: seq<Relay.Call>, steps: seq<Step> :| Run(c, Initial(h, log), steps) == Some(s);
    RunKeepsInv(c, Initial(h, log), steps, s);
    InitialStays(c, Initial(h, log), steps, s);
  }

  lemma {:induction false} InitialStays(c: Config, s: State, steps: seq<Step>, s': State)
    requires Run(c, s, steps) == Some(s')
    ensures s'.initial == s.initial
    decreases |steps|
  {
    if steps != [] {
      InitialStays(c, Next(c, s, steps[0]).value, steps[1..], s');
    }
  }

  // ---- What the operation promises ----

  /** The relay was not read on at first, was then told to go on, after its identity was confirmed, and was last read on. */
  ghost predicate SwitchedOn(c: Config, s: State) {
    && s.asked <= s.checked <= |s.log|
    && ReadNotOn(c, s)
    && Relay.SwitchedWithin(s.log, s.checked, |s.log|, true)
    && forall k :: s.checked <= k < |s.log| && s.log[k].request.Change? ==>
         s.log[k].request == Relay.Change(true) && Relay.IdentityConfirmed(c.profile, s.log, s.checked, k)
  }

  lemma ChangedIsSwitchedOn(c: Config, s: State, result: Result<Relay.PowerObservation>)
    requires s.asked <= s.checked <= |s.log| && ReadNotOn(c, s)
    requires Changed(c, s, result) && result.Ok?
    ensures SwitchedOn(c, s) && result.value.state == Relay.On
  {
    hide Relay.Query, Relay.Switch, Relay.SwitchedWithin, Relay.IdentityConfirmed, ReadNotOn;
    Relay.OkMeansSwitched(c.profile, s.log, s.checked, true);
    forall k | s.checked <= k < |s.log| && s.log[k].request.Change?
      ensures s.log[k].request == Relay.Change(true) && Relay.IdentityConfirmed(c.profile, s.log, s.checked, k)
    {
      Relay.ChangeNeedsIdentity(c.profile, s.log, s.checked, true, k);
    }
  }

  /** Success means that the worker switched the relay on, verified it and was joined, and that a prompt was seen. */
  lemma OkMeansVerifiedPrompt(c: Config, h: History, s: State)
    requires Reachable(c, h, s) && s.pc.Done? && s.pc.result.Ok?
    ensures s.worker.Joined? && s.worker.outcome.Returned? && s.worker.outcome.result.Ok?
    ensures s.worker.outcome.result.value.state == Relay.On && SwitchedOn(c, s)
    ensures s.pc.result.value == UbootPrompt && |s.sightings| == 2 && s.sightings[1].state == UbootPrompt
  {
    ReachableInv(c, h, s);
    hide HistoryInv, SightingInv, ReportInv, Observe, CursorWindow, SwitchedOn, Changed, ReadNotOn;
    OkIsDecided(c, s);
    ChangedIsSwitchedOn(c, s, s.worker.outcome.result);
  }

  lemma OkIsDecided(c: Config, s: State)
    requires Inv(c, s) && s.pc.Done? && s.pc.result.Ok?
    ensures s.worker.Joined? && s.worker.outcome.Returned? && s.worker.outcome.result.Ok?
    ensures s.pc.result.value == UbootPrompt && |s.sightings| == 2 && s.sightings[1].state == UbootPrompt
  {
    hide Changed, ReadNotOn, Observe, CursorWindow;
  }

  /**
   A spawned worker ran one relay change, or panicked. Its failure is the operation's, whatever the
   console showed or the boot side ran into.
   */
  lemma WorkerErrorWins(c: Config, h: History, s: State)
    requires Reachable(c, h, s) && s.pc.Done? && !s.worker.NotSpawned?
    ensures s.worker.Joined? && s.asked <= s.checked <= |s.log|
    ensures
      match s.worker.outcome
      case Panicked => s.pc.result == Err(Error(PowerBackendFailed, "power_on_uboot"))
      case Returned(result) =>
        && Relay.Segment(c.profile, s.log[..s.checked], s.log, true)
        && result == Relay.Switch(c.profile, s.log, s.checked, true).result
        && (result.Err? ==> s.pc.result.Err? && s.pc.result.error == result.error)
  {
    ReachableInv(c, h, s);
    hide HistoryInv, SightingInv, ReportInv, TimingInv, Relay.Segment, Relay.Switch, Relay.Query, Reachable;
  }

  /**
   If the relay was switched on and verified, the operation fails only because a wait timed out, the
   first after the operation's timeout or the second ten seconds after a countdown or prompt was seen,
   or because the port failed while the answer to it was sent.
   */
  lemma BootErrorsAreExplained(c: Config, h: History, s: State)
    requires Reachable(c, h, s) && s.pc.Done? && s.pc.result.Err?
    requires s.worker.Joined? && s.worker.outcome.Returned? && s.worker.outcome.result.Ok?
    ensures
      || (s.pc.result == Err(Error(StateTimeout, "state_wait"))
          && if s.sightings == [] then s.since + c.timeout <= s.clock
             else |s.sightings| == 1 && s.sightings[0].when + 10000 <= s.clock)
      || (s.pc.result == Err(Error(SerialDisconnected, "serial_write"))
          && |s.sightings| == 1 && |s.sent| == 1 && s.sent[0].1 <= Message(c, s.sent[0].0))
  {
    ReachableInv(c, h, s);
    hide HistoryInv, SightingInv, ReportInv, RelayInv, Reachable;
  }

  /** The first query's read succeeded, and so did its list of neighbors, if it needed one. */
  ghost predicate QuerySucceeded(profile: Relay.Profile, log: seq<Relay.Call>, at: nat) {
    && Relay.ReadSucceeded(profile, log, at)
    && (profile.identity.value.Some? ==> at + 1 < |log| && log[at + 1].answer.Ok?)
  }

  /** Without a worker, the operation ended on its first query: that failed, or its read said on. */
  lemma RefusalIsExplained(c: Config, h: History, s: State)
    requires Reachable(c, h, s) && s.pc.Done? && s.worker.NotSpawned?
    ensures s.asked <= s.checked == |s.log| && s.pc.result.Err?
    ensures
      if QuerySucceeded(c.profile, s.log, s.asked)
      then Relay.ReadAs(s.log[s.asked], Relay.On) && s.pc.result.error == Error(PowerStateUnverified, "power_on_uboot")
      else Relay.Query(c.profile, s.log, s.asked).result == Err(s.pc.result.error)
  {
    ReachableInv(c, h, s);
    hide HistoryInv, SightingInv, ReportInv, TimingInv, WorkerInv, Reachable;
    assert s.log[..s.checked] == s.log && |s.log[..s.asked]| == s.asked;
    Relay.QueryMeaning(c.profile, s.log, s.asked);
    hide Relay.Query, Relay.ReadAs, Relay.Says;
  }

  /** The operation goes on to switch the relay exactly when the first query succeeds without reading on. */
  lemma NotOnGoesOn(c: Config, s: State, calls: seq<Relay.Call>, s': State)
    requires s.pc.Precheck? && Next(c, s, ReadRelay(calls)) == Some(s')
    ensures s'.log == s.log + calls && (s'.pc.Arm? || (s'.pc.Done? && s'.pc.result.Err?))
    ensures
      s'.pc.Arm? <==>
      QuerySucceeded(c.profile, s'.log, |s.log|) && !Relay.ReadAs(s'.log[|s.log|], Relay.On)
  {
    Relay.QueryMeaning(c.profile, s'.log, |s.log|);
    var relay := Relay.Query(c.profile, s'.log, |s.log|).result;
    if relay.Ok? {
      var output := s'.log[|s.log|].answer.value;
      Relay.ReportedMeaning(output, relay.value.state);
      Relay.ReportedMeaning(output, Relay.On);
    }
    hide Relay.Query, Relay.Says;
  }

  /** The worker is joined at most once, and no spawned worker outlives the operation. */
  lemma JoinedOnceBeforeReturn(c: Config, h: History, s: State)
    requires Reachable(c, h, s)
    ensures s.joins <= 1 && (s.joins == 1 <==> s.worker.Joined?)
    ensures s.pc.Done? ==> !s.worker.Running? && !s.worker.Finished?
    ensures s.pc.Done? && !s.worker.NotSpawned? ==> s.joins == 1
  {
    ReachableInv(c, h, s);
  }

  /** The moments at which the cursors were read and the waits ended. */
  function Moments(s: State): Entry
    requires |s.sightings| == 2
  {
    Entry(s.armed, s.sightings[0].seen, s.resumed, s.sightings[1].seen)
  }

  /**
   A success that saw a countdown sent the interrupt, and nothing else, and reported it; and its
   evidence lies in order around the two cursors it read, all newer than the operation's start.
   */
  lemma InterruptingEvidence(c: Config, h: History, s: State)
    requires Reachable(c, h, s) && s.pc.Done? && s.pc.result.Ok? && s.sightings != []
    requires s.sightings[0].state == UbootCountdown
    ensures |s.sightings| == 2 && EnteredUboot(c.patterns, c.capacity, h, Moments(s), s.history)
    ensures s.sent == [(Interrupted, c.interrupt)]
    ensures s.actions == [SentInterrupt, VerifiedRelayOn]
  {
    ReachableInv(c, h, s);
    hide Observe, CursorWindow, Extends, Run, EnteredUboot, RelayInv, WorkerInv;
    EvidenceIsOrdered(c.patterns, c.capacity, h, Moments(s), s.history);
  }

  /**
   When the first evidence is already a prompt, no interrupt is ever sent or reported, in that run. A
   success sent Enter, and nothing else, and rests on a prompt wholly after the cursor read before that.
   */
  lemma PromptPathNeverInterrupts(c: Config, h: History, s: State)
    requires Reachable(c, h, s) && s.sightings != [] && s.sightings[0].state == UbootPrompt
    ensures SentInterrupt !in s.actions
    ensures forall i :: 0 <= i < |s.sent| ==> s.sent[i].0 == Entered
    ensures s.pc.Done? && s.pc.result.Ok? ==>
              && s.sent == [(Entered, ['\r'])]
              && s.actions == [SentEnter, VerifiedRelayOn]
              && |s.sightings| == 2
              && exists at: nat ::
                   && |s.resumed.bytes| <= at
                   && DecidesAfter(c.patterns, s.sightings[1].seen, c.capacity, |s.resumed.bytes|, UBOOT_PROMPT, at)
                   && Candidate(c.patterns, s.history.bytes, UBOOT_PROMPT, at)
  {
    ReachableInv(c, h, s);
    if s.pc.Done? && s.pc.result.Ok? {
      hide Observe, CursorWindow, Run, RelayInv, DecidesAfter, Candidate;
      var last := s.sightings[1];
      var at := WaitFound(c.patterns, last.seen, c.capacity, last.cursor, UBOOT_PROMPT);
      CandidatePersists(c.patterns, last.seen, s.history, UBOOT_PROMPT, at);
    }
  }

  /** What a poll in a stage does when it sees a state: accept it, give up, or go on. */
  ghost predicate PollEnds(c: Config, s: State, seen: BoardState, s': State)
    requires s.pc.Poll?
  {
    var first := s.pc.stage.First?;
    if first && seen in {UbootPrompt, UbootCountdown} then
      s'.pc == ReadCursor(if seen == UbootPrompt then Entered else Interrupted) && |s'.sightings| == 1
    else if !first && seen == UbootPrompt then s'.pc == Collect(Ok(UbootPrompt)) && |s'.sightings| == 2
    else
      && s'.sightings == s.sightings
      && if s.since + (if first then c.timeout else 10000) <= s.clock
         then s'.pc == Collect(Err(Error(StateTimeout, "state_wait"))) else s'.pc == Check(s.pc.stage)
  }

  lemma PolledEnds(c: Config, s: State, stage: Stage, seen: BoardState)
    requires SightingInv(c, s) && TimingInv(c, s) && WorkerInv(s) && s.pc == Poll(stage)
    requires
      var cursor := |(if stage.First? then s.armed else s.resumed).bytes|;
      seen == Observe(c.patterns, CursorWindow(s.history, c.capacity, cursor)).state
    ensures PollEnds(c, s, seen, Polled(c, s, stage))
  {
    hide Observe, CursorWindow, Extends, BootFailed;
    assert InStage(s, stage);
  }

  /**
   A poll ends its wait exactly when it sees what the wait is for; otherwise it gives up exactly when
   the wait's time is over, and else the worker is looked after and the wait goes on.
   */
  lemma PollsDecide(c: Config, h: History, s: State, s': State)
    requires Reachable(c, h, s) && s.pc.Poll? && Next(c, s, Advance) == Some(s')
    ensures
      var cursor := |(if s.pc.stage.First? then s.armed else s.resumed).bytes|;
      PollEnds(c, s, Observe(c.patterns, CursorWindow(s.history, c.capacity, cursor)).state, s')
  {
    hide WorkerInv, HistoryInv, SightingInv, ReportInv, RelayInv, TimingInv, Reachable, PollEnds, Polled, Observe;
    ReachableInv(c, h, s);
    var cursor := |(if s.pc.stage.First? then s.armed else s.resumed).bytes|;
    PolledEnds(c, s, s.pc.stage, Observe(c.patterns, CursorWindow(s.history, c.capacity, cursor)).state);
  }

  /** A query that is possible at any time: one whose command fails. */
  function FailingQuery(profile: Relay.Profile): seq<Relay.Call> {
    if profile.matter && profile.identity.Ok?
    then [Relay.Call(Relay.ReadState, 0, Err(Error(PowerBackendFailed, "power_query")))]
    else []
  }

  lemma QueryCanFail(profile: Relay.Profile, log: seq<Relay.Call>)
    ensures Relay.Queried(profile, log, log + FailingQuery(profile))
  {
  }

  lemma CanStep(c: Config, s: State)
    requires WorkerInv(s) && !s.pc.Done?
    requires Relay.Queried(c.profile, s.log, s.log + FailingQuery(c.profile))
    ensures
      || (s.pc.Collect? && s.worker.Running? && Next(c, s, Finish(true)).Some?)
      || Next(c, s, ReadRelay(FailingQuery(c.profile))).Some?
      || Next(c, s, Advance).Some?
      || Next(c, s, Look(false)).Some?
      || Next(c, s, Transmit(|Message(c, Interrupted)|, true)).Some?
      || Next(c, s, Transmit(|Message(c, Entered)|, true)).Some?
  {
    hide Relay.Query, Relay.Queried, FailingQuery, Polled, IsNext;
    if s.pc.Send? {
      assert s.pc.stage.Entered? || Message(c, s.pc.stage) == Message(c, Interrupted);
    }
  }

  /** The main thread can always take a step, except that it waits at the end for a worker that still runs. */
  lemma NeverStuck(c: Config, h: History, s: State)
    requires Reachable(c, h, s) && !s.pc.Done?
    ensures
      || (s.pc.Collect? && s.worker.Running? && Next(c, s, Finish(true)).Some?)
      || Next(c, s, ReadRelay(FailingQuery(c.profile))).Some?
      || Next(c, s, Advance).Some?
      || Next(c, s, Look(false)).Some?
      || Next(c, s, Transmit(|Message(c, Interrupted)|, true)).Some?
      || Next(c, s, Transmit(|Message(c, Entered)|, true)).Some?
  {
    hide Next, FailingQuery, WorkerInv, HistoryInv, SightingInv, ReportInv, RelayInv, Reachable;
    ReachableInv(c, h, s);
    QueryCanFail(c.profile, s.log);
    CanStep(c, s);
  }

  lemma WorkerCanReturn(c: Config, s: State)
    requires s.checked <= |s.log| && Underway(c, s)
    requires |s.log| - s.checked == |Relay.Switch(c.profile, s.log, s.checked, true).requests|
    ensures Relay.Segment(c.profile, s.log[..s.checked], s.log, true)
  {
    hide Relay.Query, Relay.Switch;
    assert |s.log[..s.checked]| == s.checked;
  }

  /** A running worker can always issue its next command, whatever the answer will be, or return with its result. */
  lemma WorkerNeverStuck(c: Config, h: History, s: State, deadline: nat, answer: Result<PowerCommand.Output>)
    requires Reachable(c, h, s) && s.worker.Running?
    ensures
      || Next(c, s, Finish(false)).Some?
      || exists request :: Next(c, s, Issue(Relay.Call(request, deadline, answer))).Some?
  {
    hide Relay.Query, Relay.Switch, Relay.Segment, Reachable;
    hide WorkerInv, HistoryInv, SightingInv, ReportInv;
    ReachableInv(c, h, s);
    var requests := Relay.Switch(c.profile, s.log, s.checked, true).requests;
    if |s.log| - s.checked < |requests| {
      var request := requests[|s.log| - s.checked];
      assert IsNext(c, s, request);
      assert Next(c, s, Issue(Relay.Call(request, deadline, answer))).Some?;
    } else {
      WorkerCanReturn(c, s);
      assert Next(c, s, Finish(false)).Some?;
    }
  }
}
