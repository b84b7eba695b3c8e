/** The operations that combine console evidence with writes to the UART and changes of the relay. */
module Operations {
  import opened Basics
  import opened Serial
  import opened Snapshots
  import opened Detector
  import opened Boards
  import Framing = CommandFraming
  import opened PowerControl
  import Relay

  /** Places of the patterns in `DETECTABLE`. */
  const SHUTDOWN := 0
  const LINUX_SHELL := 1
  const UBOOT_PROMPT := 4
  const UBOOT_COUNTDOWN := 5

  // ---- Entering U-Boot through its countdown ----

  /** Where the evidence of an entry into U-Boot lies in the serial history. */
  datatype UbootEvidence = UbootEvidence(start: nat, countdownAt: nat, promptCursor: nat, promptAt: nat)

  ghost predicate Ordered(p: Patterns, h: History, e: UbootEvidence) {
    && OccursAt(h.bytes, p.ubootCountdown, e.countdownAt)
    && p.ubootPrompt != [] && OccursAt(h.bytes, p.ubootPrompt, e.promptAt)
    && e.start <= e.countdownAt < e.countdownAt + |p.ubootCountdown| <= e.promptCursor <= e.promptAt
  }

  /**
   The moments of an entry into U-Boot: its start cursor was read, a countdown was observed, its
   prompt cursor was read, a prompt was observed.
   */
  datatype Entry = Entry(armed: History, counted: History, resumed: History, prompted: History)

  /** The moments from before to after, in order, and the first of them in a new generation. */
  ghost predicate InOrder(before: History, e: Entry, after: History) {
    && Extends(before, e.armed) && before.generation < e.armed.generation
    && Extends(e.armed, e.counted)
    && Extends(e.counted, e.resumed)
    && Extends(e.resumed, e.prompted)
    && Extends(e.prompted, after)
  }

  /** Both observations were decided by occurrences that lie in order around the operation's own two cursors. */
  ghost predicate DecidedInOrder(p: Patterns, capacity: nat, e: Entry, after: History, countdownAt: nat, promptAt: nat) {
    && DecidesAfter(p, e.counted, capacity, |e.armed.bytes|, UBOOT_COUNTDOWN, countdownAt)
    && DecidesAfter(p, e.prompted, capacity, |e.resumed.bytes|, UBOOT_PROMPT, promptAt)
    && Ordered(p, after, UbootEvidence(|e.armed.bytes|, countdownAt, |e.resumed.bytes|, promptAt))
  }

  /** An entry into U-Boot left its evidence in order, all of it newer than the moment before it. */
  ghost predicate EnteredUboot(p: Patterns, capacity: nat, before: History, e: Entry, after: History) {
    && InOrder(before, e, after)
    && (exists countdownAt: nat, promptAt: nat :: DecidedInOrder(p, capacity, e, after, countdownAt, promptAt))
    && (forall i :: |e.armed.bytes| <= i < |after.bytes| ==> before.generation < after.tags[i])
  }

  lemma CandidatePersists(p: Patterns, h: History, later: History, k: nat, at: nat)
    requires Extends(h, later) && Candidate(p, h.bytes, k, at)
    ensures Candidate(p, later.bytes, k, at)
  {
    assert later.bytes == h.bytes + later.bytes[|h.bytes|..];
    CandidateInPrefix(p, h.bytes, later.bytes[|h.bytes|..], k, at);
  }

  /** The k-th pattern decides a wait for output after this cursor, by the occurrence at this place. */
  ghost predicate DecidesAfter(p: Patterns, h: History, capacity: nat, cursor: nat, k: nat, at: nat) {
    var lo := Min(Max(cursor, h.Oldest(capacity)), |h.bytes|);
    cursor <= lo && Decides(p, h, lo, Min(lo + WINDOW, |h.bytes|), k, at)
  }

  /** What a successful wait for fresh output found. */
  lemma WaitFound(p: Patterns, h: History, capacity: nat, cursor: nat, k: nat) returns (at: nat)
    requires h.Valid() && k < 6
    requires Observe(p, CursorWindow(h, capacity, cursor)).state == DETECTABLE[k]
    ensures DecidesAfter(p, h, capacity, cursor, k, at)
    ensures cursor <= at && Candidate(p, h.bytes, k, at) && at + |Pattern(p, k)| <= |h.bytes|
  {
    var lo := Min(Max(cursor, h.Oldest(capacity)), |h.bytes|);
    var hi := Min(lo + WINDOW, |h.bytes|);
    assert CursorWindow(h, capacity, cursor) == h.bytes[lo..hi];
    WindowDecides(p, h, lo, hi, k);
    at :| Decides(p, h, lo, hi, k, at);
  }

  /**
   A countdown seen after a cursor taken at one moment, and then a prompt seen after a cursor taken
   at a later one, lie in that order in the history, whatever arrived in between.
   */
  lemma EvidenceIsOrdered(p: Patterns, capacity: nat, before: History, e: Entry, after: History)
    requires InOrder(before, e, after)
    requires Observe(p, CursorWindow(e.counted, capacity, |e.armed.bytes|)).state == UbootCountdown
    requires Observe(p, CursorWindow(e.prompted, capacity, |e.resumed.bytes|)).state == UbootPrompt
    ensures EnteredUboot(p, capacity, before, e, after)
  {
    hide Observe, CursorWindow, DecidesAfter, OccursAt;
    var countdownAt := WaitFound(p, e.counted, capacity, |e.armed.bytes|, UBOOT_COUNTDOWN);
    var promptAt := WaitFound(p, e.prompted, capacity, |e.resumed.bytes|, UBOOT_PROMPT);
    CandidateIsConfigured(p, e.counted.bytes, UBOOT_COUNTDOWN, countdownAt);
    ExtendsTransitively(e.resumed, e.prompted, after);
    ExtendsTransitively(e.counted, e.resumed, after);
    ExtendsTransitively(e.armed, e.counted, after);
    CandidatePersists(p, e.counted, after, UBOOT_COUNTDOWN, countdownAt);
    CandidatePersists(p, e.prompted, after, UBOOT_PROMPT, promptAt);
    assert DecidedInOrder(p, capacity, e, after, countdownAt, promptAt);
  }

  /** Which field of the profile a candidate is an occurrence of. */
  lemma CandidateField(p: Patterns, text: Bytes, k: nat, at: nat)
    requires Candidate(p, text, k, at)
    ensures k == LINUX_SHELL ==> p.linuxShell != [] && OccursAt(text, p.linuxShell, at)
    ensures k == SHUTDOWN ==>
              && p.shutdown.Some? && p.shutdown.value != [] && p.shutdown.value == Pattern(p, k)
              && OccursAt(text, p.shutdown.value, at)
    ensures k == UBOOT_PROMPT ==> p.ubootPrompt != [] && OccursAt(text, p.ubootPrompt, at)
    ensures k == UBOOT_COUNTDOWN ==> p.ubootCountdown != [] && OccursAt(text, p.ubootCountdown, at)
  {
  }

  lemma CandidateIsConfigured(p: Patterns, text: Bytes, k: nat, at: nat)
    requires Candidate(p, text, k, at)
    ensures k < 6 && Pattern(p, k) != []
  {
  }

  /** A countdown lies wholly between the cursors of two moments. */
  ghost predicate CountdownBetween(p: Patterns, armed: History, resumed: History, h: History) {
    p.ubootCountdown != [] &&
    exists at: nat ::
      && |armed.bytes| <= at
      && OccursAt(h.bytes, p.ubootCountdown, at)
      && at + |p.ubootCountdown| <= |resumed.bytes|
  }

  lemma WaitSawCountdown(p: Patterns, capacity: nat, armed: History, counted: History, resumed: History, later: History)
    requires Extends(counted, resumed) && Extends(resumed, later)
    requires Observe(p, CursorWindow(counted, capacity, |armed.bytes|)).state == UbootCountdown
    ensures CountdownBetween(p, armed, resumed, later)
  {
    hide Observe, CursorWindow, OccursAt;
    var at := WaitFound(p, counted, capacity, |armed.bytes|, UBOOT_COUNTDOWN);
    ExtendsTransitively(counted, resumed, later);
    CandidatePersists(p, counted, later, UBOOT_COUNTDOWN, at);
  }

  /** The deeds of an exchange: a cursor is read, and then so much of a message is sent. */
  ghost predicate Exchanged(deeds: seq<Deed>, from: History, sent: Bytes) {
    && |deeds| == 2
    && deeds[0] == CursorRead(from)
    && deeds[1].Wrote? && deeds[1].bytes == sent
  }

  /** Sends a message and waits for a state in what comes after the cursor that was read before it was sent. */
  method SendAndWait(board: Board, message: Bytes, state: BoardState, timeout: nat) returns (r: Result<BoardState>)
    requires board.ring.Valid()
    modifies board`turn, board`clock, board`written, board`deeds, board`looks, board.ring
    ensures board.ring.Valid() && Extends(old(board.ring.history), board.ring.history)
    ensures old(board.written) <= board.written <= old(board.written) + message
    ensures old(board.deeds) <= board.deeds && old(board.looks) <= board.looks && old(board.clock) <= board.clock
    ensures forall i :: |old(board.looks)| <= i < |board.looks| ==> board.looks[i] <= board.clock
    ensures Exchanged(board.deeds[|old(board.deeds)|..], old(board.ring.history), board.written[|old(board.written)|..])
    ensures old(board.clock) <= board.deeds[|old(board.deeds)|..][1].ended
    ensures r.Ok? ==>
              && r.value == state
              && board.written == old(board.written) + message
              && Observe(board.patterns, CursorWindow(board.ring.history, board.ring.capacity,
                                                      |old(board.ring.history).bytes|)).state == state
    ensures r.Err? ==>
              || (r.error == Error(SerialDisconnected, "serial_write") && board.environment.portFails(board.turn))
              || (r.error == Error(StateTimeout, "state_wait")
                  && board.written == old(board.written) + message
                  && GaveUpAfter(board.deeds[|old(board.deeds)|..], board.looks, |old(board.looks)|, timeout, board.clock)
                  && Observe(board.patterns, CursorWindow(board.ring.history, board.ring.capacity,
                                                          |old(board.ring.history).bytes|)).state != state)
  {
    ghost var h0, n := board.ring.history, |board.deeds|;
    hide Covers, Observe, Extends, CursorWindow, Retains, SerialRing.Valid;
    var cursor := board.NextCursor();
    var sending := board.WriteConsole(message);
    assert Exchanged(board.deeds[n..], h0, board.written[|old(board.written)|..]);
    if sending.Err? {
      return Err(sending.error);
    }
    ghost var h1, sent := board.ring.history, board.clock;
    assert LastSentAt(board.deeds[n..], sent);
    hide Exchanged, LastSentAt, GaveUpAfter;
    r := board.WaitForStatesAfter([state], timeout, cursor);
    ExtendsTransitively(h0, h1, board.ring.history);
    if r.Err? {
      GivesUp(board.deeds[n..], sent, board.looks, |old(board.looks)|, timeout, board.clock);
    }
  }

  /** The last message had been sent at this time. */
  ghost predicate LastSentAt(deeds: seq<Deed>, time: nat) {
    deeds != [] && deeds[|deeds| - 1].Wrote? && deeds[|deeds| - 1].ended == time
  }

  /** A wait that began when the last message had been sent ended at its first look after its time was over. */
  ghost predicate GaveUpAfter(deeds: seq<Deed>, looks: seq<nat>, from: nat, limit: nat, clock: nat) {
    exists sent: nat ::
      && LastSentAt(deeds, sent)
      && sent + limit <= clock
      && forall i :: from <= i < |looks| - 1 ==> looks[i] < sent + limit
  }

  lemma GivesUp(deeds: seq<Deed>, sent: nat, looks: seq<nat>, from: nat, limit: nat, clock: nat)
    requires LastSentAt(deeds, sent) && sent + limit <= clock
    requires forall i :: from <= i < |looks| - 1 ==> looks[i] < sent + limit
    ensures GaveUpAfter(deeds, looks, from, limit, clock)
  {
  }

  /** The deeds of a whole entry: two exchanges, each from its own cursor. */
  ghost predicate EntryDeeds(deeds: seq<Deed>, e: Entry, command: Bytes, interrupt: Bytes) {
    && |deeds| == 4
    && Exchanged(deeds[..2], e.armed, command)
    && Exchanged(deeds[2..], e.resumed, interrupt)
  }

  /** A wait ended without success: the first after the given timeout, the second ten seconds after the interrupt. */
  ghost predicate EntryTimedOut(deeds: seq<Deed>, looks: seq<nat>, from: nat, timeout: nat, clock: nat) {
    || (|deeds| == 2 && GaveUpAfter(deeds, looks, from, timeout, clock))
    || (|deeds| == 4 && GaveUpAfter(deeds, looks, from, 10000, clock))
  }

  lemma ExchangesMakeEntry(start: seq<Deed>, middle: seq<Deed>, end: seq<Deed>, e: Entry, command: Bytes, interrupt: Bytes)
    requires start <= middle <= end
    requires Exchanged(middle[|start|..], e.armed, command) && Exchanged(end[|middle|..], e.resumed, interrupt)
    ensures EntryDeeds(end[|start|..], e, command, interrupt)
  {
    var deeds := end[|start|..];
    assert deeds[..2] == middle[|start|..];
    assert deeds[2..] == end[|middle|..];
  }

  lemma FirstWaitTimedOut(deeds: seq<Deed>, looks: seq<nat>, from: nat, timeout: nat, clock: nat)
    requires |deeds| == 2 && GaveUpAfter(deeds, looks, from, timeout, clock)
    ensures EntryTimedOut(deeds, looks, from, timeout, clock)
  {
  }

  /** Looks of the first wait were earlier than the second message. */
  lemma SecondWaitTimedOut(
      start: seq<Deed>, middle: seq<Deed>, end: seq<Deed>,
      looks: seq<nat>, from: nat, between: nat, time: nat, timeout: nat, clock: nat)
    requires start <= middle <= end && |middle| == |start| + 2 && |end| == |middle| + 2
    requires GaveUpAfter(end[|middle|..], looks, between, 10000, clock)
    requires from <= between <= |looks| && forall i :: from <= i < between ==> looks[i] <= time
    requires end[|end| - 1].Wrote? && time <= end[|end| - 1].ended
    ensures EntryTimedOut(end[|start|..], looks, from, timeout, clock)
  {
    var sent: nat :|
      && LastSentAt(end[|middle|..], sent)
      && sent + 10000 <= clock
      && forall i :: between <= i < |looks| - 1 ==> looks[i] < sent + 10000;
    assert LastSentAt(end[|start|..], sent);
    GivesUp(end[|start|..], sent, looks, from, 10000, clock);
  }

  /**
   Reset from a U-Boot prompt, or reboot from a Linux shell, and stop at the next countdown. Nothing
   beyond the command itself is sent before a countdown has been seen, wholly between the two cursors.
   */
  method IntoUboot(board: Board, command: Bytes, timeout: nat) returns (r: Result<BoardState>, ghost entry: Entry)
    requires board.ring.Valid()
    modifies board`turn, board`clock, board`written, board`deeds, board`looks, board.ring
    ensures board.ring.Valid()
    ensures r.Ok? ==> r.value == UbootPrompt
    ensures r.Ok? ==> board.written == old(board.written) + command + board.interrupt
    ensures old(board.deeds) <= board.deeds
    ensures r.Ok? ==> EntryDeeds(board.deeds[|old(board.deeds)|..], entry, command, board.interrupt)
    ensures r.Ok? ==>
              && entry.prompted == board.ring.history
              && EnteredUboot(board.patterns, board.ring.capacity, old(board.ring.history), entry, board.ring.history)
    ensures old(board.written) <= board.written <= old(board.written) + command + board.interrupt
    ensures |old(board.written)| + |command| < |board.written| ==>
              && EntryDeeds(board.deeds[|old(board.deeds)|..], entry, command, board.written[|old(board.written)| + |command|..])
              && CountdownBetween(board.patterns, entry.armed, entry.resumed, board.ring.history)
    ensures r.Err? ==>
              || (r.error == Error(SerialDisconnected, "serial_write") && board.environment.portFails(board.turn))
              || (r.error == Error(StateTimeout, "state_wait")
                  && EntryTimedOut(board.deeds[|old(board.deeds)|..], board.looks, |old(board.looks)|, timeout, board.clock))
  {
    hide Covers, Observe, Extends, CursorWindow, EnteredUboot, CountdownBetween, Retains, SerialRing.Valid;
    hide EntryDeeds, EntryTimedOut, GaveUpAfter;
    var ring := board.ring;
    ghost var before, deeds, looks := ring.history, board.deeds, board.looks;
    var _ := ring.MarkGeneration();
    ghost var marked := ring.history;
    board.Yield();
    ghost var armed := ring.history;
    ExtendsTransitively(before, marked, armed);
    ExtendsGeneration(marked, armed);
    entry := Entry(armed, armed, armed, armed);
    r := SendAndWait(board, command, UbootCountdown, timeout);
    if r.Err? {
      if r.error.code == StateTimeout {
        FirstWaitTimedOut(board.deeds[|deeds|..], board.looks, |looks|, timeout, board.clock);
      }
      return;
    }
    ghost var counted, first, looked, time := ring.history, board.deeds, board.looks, board.clock;
    board.Yield();
    ghost var resumed, written := ring.history, board.written;
    entry := Entry(armed, counted, resumed, resumed);
    r := SendAndWait(board, board.interrupt, UbootPrompt, 10000);
    ExchangesMakeEntry(deeds, first, board.deeds, entry, command, board.written[|written|..]);
    WaitSawCountdown(board.patterns, ring.capacity, armed, counted, resumed, ring.history);
    if r.Ok? {
      entry := Entry(armed, counted, resumed, ring.history);
      LatestExtends(resumed, ring.history);
      EvidenceIsOrdered(board.patterns, ring.capacity, before, entry, ring.history);
      ExchangesMakeEntry(deeds, first, board.deeds, entry, command, board.interrupt);
    } else if r.error.code == StateTimeout {
      SecondWaitTimedOut(deeds, first, board.deeds, board.looks, |looks|, |looked|, time, timeout, board.clock);
    }
  }

  lemma LatestExtends(h: History, later: History)
    requires Extends(h, later)
    ensures Extends(later, later)
  {
  }

  lemma ExtendsGeneration(h: History, later: History)
    requires Extends(h, later)
    ensures h.generation <= later.generation
  {
  }

  // ---- Graceful power-off ----

  /** The k-th pattern decides the observed state, by the occurrence at this place. */
  ghost predicate DecidesNow(p: Patterns, h: History, capacity: nat, k: nat, at: nat) {
    Decides(p, h, WindowStart(h, capacity, h.generation, WINDOW), |h.bytes|, k, at)
  }

  /** The shell prompt that decides at one moment precedes the shutdown message that decides at a later one. */
  ghost predicate ShutdownFollows(
      p: Patterns, capacity: nat, h: History, later: History, shellAt: nat, shutdownAt: nat)
  {
    && DecidesNow(p, h, capacity, LINUX_SHELL, shellAt)
    && DecidesNow(p, later, capacity, SHUTDOWN, shutdownAt)
    && p.linuxShell != [] && OccursAt(h.bytes, p.linuxShell, shellAt)
    && p.shutdown.Some? && p.shutdown.value != [] && OccursAt(later.bytes, p.shutdown.value, shutdownAt)
    && shellAt < shutdownAt
    && |h.bytes| < shutdownAt + |p.shutdown.value|
  }

  /** A shell was observed at one moment, and at another a shutdown that followed it. */
  ghost predicate ShutdownSeen(p: Patterns, capacity: nat, before: History, after: History) {
    && Extends(before, after)
    && exists shellAt: nat, shutdownAt: nat :: ShutdownFollows(p, capacity, before, after, shellAt, shutdownAt)
  }

  /**
   When a shell is observed at one moment and a shutdown at a later one, the shutdown message
   starts after the prompt and was still incomplete when the prompt was seen. Windows that slide,
   eviction, new generations and patterns that match at one place do not change that.
   */
  lemma ShutdownFollowsShell(p: Patterns, capacity: nat, h: History, later: History)
    requires Extends(h, later) && 0 < capacity
    requires Observe(p, GenerationWindow(h, capacity)).state == LinuxShell
    requires Observe(p, GenerationWindow(later, capacity)).state == ShutdownInProgress
    ensures ShutdownSeen(p, capacity, h, later)
  {
    hide Observe, Candidate, OccursAt;
    var lo := WindowStart(h, capacity, h.generation, WINDOW);
    var lo' := WindowStart(later, capacity, later.generation, WINDOW);
    CurrentGenerationEndsHistory(h, capacity);
    CurrentGenerationEndsHistory(later, capacity);
    WindowDecides(p, h, lo, |h.bytes|, LINUX_SHELL);
    WindowDecides(p, later, lo', |later.bytes|, SHUTDOWN);
    var shellAt: nat :| Decides(p, h, lo, |h.bytes|, LINUX_SHELL, shellAt);
    var shutdownAt: nat :| Decides(p, later, lo', |later.bytes|, SHUTDOWN, shutdownAt);
    CandidatePersists(p, h, later, LINUX_SHELL, shellAt);
    if shutdownAt + |Pattern(p, SHUTDOWN)| <= |h.bytes| {
      assert later.bytes == h.bytes + later.bytes[|h.bytes|..];
      CandidateInPrefix(p, h.bytes, later.bytes[|h.bytes|..], SHUTDOWN, shutdownAt);
    }
    CandidateField(p, h.bytes, LINUX_SHELL, shellAt);
    CandidateField(p, later.bytes, SHUTDOWN, shutdownAt);
    assert ShutdownFollows(p, capacity, h, later, shellAt, shutdownAt);
  }

  /** The deeds of a shutdown: the file systems are synchronized, and given a second for it, before the command is sent. */
  ghost predicate SyncedThenShutDown(deeds: seq<Deed>, shutdown: Bytes) {
    && |deeds| == 2
    && deeds[0].Wrote? && deeds[0].bytes == "sync\r"
    && deeds[1].Wrote? && deeds[1].bytes == shutdown + ['\r']
    && deeds[0].ended + 1000 <= deeds[1].begun
  }

  method SendShutdown(board: Board, shutdown: Bytes) returns (r: Result<Unit>)
    requires board.ring.Valid()
    modifies board`turn, board`clock, board`written, board`deeds, board.ring
    ensures board.ring.Valid() && Extends(old(board.ring.history), board.ring.history)
    ensures r.Ok? ==> board.written == old(board.written) + "sync\r" + (shutdown + ['\r'])
    ensures r.Ok? ==>
              && old(board.deeds) <= board.deeds
              && SyncedThenShutDown(board.deeds[|old(board.deeds)|..], shutdown)
              && LastSentAt(board.deeds[|old(board.deeds)|..], board.clock)
    ensures r.Err? ==> r.error == Error(SerialDisconnected, "serial_write") && board.environment.portFails(board.turn)
  {
    ghost var h0 := board.ring.history;
    hide Covers, Extends, Observe;
    var _ :- board.WriteConsole("sync\r");
    ghost var h1 := board.ring.history;
    board.Sleep(1000);
    ExtendsTransitively(h0, h1, board.ring.history);
    h1 := board.ring.history;
    r := board.WriteConsole(shutdown + ['\r']);
    ExtendsTransitively(h0, h1, board.ring.history);
  }

  /** The console half of a graceful power-off: everything before the relay is touched. */
  method ShutDownLinux(board: Board, shutdown: Option<Bytes>, timeout: nat) returns (r: Result<Unit>)
    requires board.ring.Valid()
    modifies board`turn, board`clock, board`written, board`deeds, board`looks, board.ring
    ensures board.ring.Valid() && Extends(old(board.ring.history), board.ring.history)
    ensures r.Ok? ==> shutdown.Some?
    ensures r.Ok? ==> board.written == old(board.written) + "sync\r" + (shutdown.value + ['\r'])
    ensures r.Ok? ==>
              && old(board.deeds) <= board.deeds
              && SyncedThenShutDown(board.deeds[|old(board.deeds)|..], shutdown.value)
    ensures r.Ok? ==>
              ShutdownSeen(board.patterns, board.ring.capacity, old(board.ring.history), board.ring.history)
    ensures r.Ok? ==>
              Observe(board.patterns, GenerationWindow(old(board.ring.history), board.ring.capacity)).state == LinuxShell
    ensures r.Err? ==>
              if Observe(board.patterns, GenerationWindow(old(board.ring.history), board.ring.capacity)).state != LinuxShell
              then r.error == Error(ShellNotSynchronized, "shutdown") && board.deeds == old(board.deeds)
              else if shutdown.None?
              then r.error == Error(InvalidConfiguration, "shutdown") && board.deeds == old(board.deeds)
              else || (r.error == Error(SerialDisconnected, "serial_write") && board.environment.portFails(board.turn))
                   || (r.error == Error(StateTimeout, "state_wait")
                       && old(board.deeds) <= board.deeds
                       && SyncedThenShutDown(board.deeds[|old(board.deeds)|..], shutdown.value)
                       && GaveUpAfter(board.deeds[|old(board.deeds)|..], board.looks, |old(board.looks)|, timeout, board.clock))
  {
    ghost var h0 := board.ring.history;
    ExtendsItself(h0);
    assert 0 < board.ring.capacity;
    hide Covers, Extends, Observe, GenerationWindow, ShutdownSeen, SyncedThenShutDown, GaveUpAfter, LastSentAt;
    hide Retains, SerialRing.Valid;
    var state := board.ObservedState();
    if state != LinuxShell {
      return Err(Error(ShellNotSynchronized, "shutdown"));
    }
    if shutdown.None? {
      return Err(Error(InvalidConfiguration, "shutdown"));
    }
    var _ :- SendShutdown(board, shutdown.value);
    ghost var h1, sent, n := board.ring.history, board.clock, |old(board.deeds)|;
    var waited := board.WaitForStates([ShutdownInProgress], timeout, None);
    if waited.Err? {
      ExtendsTransitively(h0, h1, board.ring.history);
      GivesUp(board.deeds[n..], sent, board.looks, |old(board.looks)|, timeout, board.clock);
      return Err(waited.error);
    }
    ExtendsTransitively(h0, h1, board.ring.history);
    ShutdownFollowsShell(board.patterns, board.ring.capacity, h0, board.ring.history);
    return Ok(Unit);
  }

  /**
   The relay is not touched before the shutdown that decides the wait has been seen to follow the
   shell that met the precondition. called is the history when the relay is first asked for anything.
   */
  method GracefulPowerOff(
      board: Board, relay: PowerController, confirmed: bool, shutdown: Option<Bytes>, timeout: nat)
    returns (r: Result<Relay.PowerObservation>, ghost called: History)
    requires board.ring.Valid() && relay.Valid()
    modifies board`turn, board`clock, board`written, board`deeds, board`looks, board.ring, relay
    ensures board.ring.Valid() && relay.Valid()
    ensures !confirmed ==>
              && r == Err(Error(ConfirmationRequired, "confirmation"))
              && relay.log == old(relay.log) && board.deeds == old(board.deeds)
              && board.ring.history == old(board.ring.history)
    ensures r == Err(Error(ConfirmationRequired, "confirmation")) ==> !confirmed
    ensures r == Err(Error(ShellNotSynchronized, "shutdown")) <==>
            && confirmed
            && Observe(board.patterns, GenerationWindow(old(board.ring.history), board.ring.capacity)).state != LinuxShell
    ensures relay.log != old(relay.log) ==>
              && confirmed
              && shutdown.Some?
              && old(board.deeds) <= board.deeds
              && SyncedThenShutDown(board.deeds[|old(board.deeds)|..], shutdown.value)
              && ShutdownSeen(board.patterns, board.ring.capacity, old(board.ring.history), called)
              && Extends(called, board.ring.history)
    ensures r.Ok? ==> r.value.state == Relay.Off && relay.log != old(relay.log)
    ensures relay.log != old(relay.log) ==>
              && Relay.Segment(relay.profile, old(relay.log), relay.log, false)
              && r == Relay.Switch(relay.profile, relay.log, |old(relay.log)|, false).result
  {
    hide Covers, Extends, ShutdownSeen, SyncedThenShutDown, Relay.Segment, Relay.Switch;
    called := board.ring.history;
    if !confirmed {
      return Err(Error(ConfirmationRequired, "confirmation")), called;
    }
    var down := ShutDownLinux(board, shutdown, timeout);
    called := board.ring.history;
    if down.Err? {
      return Err(down.error), called;
    }
    ghost var before := relay.log;
    relay.SyncTo(board.clock);
    r := relay.SetPower(false);
    board.SleepUntil(relay.clock);
    if r.Ok? {
      SwitchGrewLog(relay.profile, before, relay.log);
    }
  }

  lemma SwitchGrewLog(profile: Relay.Profile, before: seq<Relay.Call>, after: seq<Relay.Call>)
    requires Relay.Segment(profile, before, after, false) && Relay.Switch(profile, after, |before|, false).result.Ok?
    ensures Relay.Switch(profile, after, |before|, false).result.value.state == Relay.Off && after != before
  {
    Relay.SwitchOk(profile, after, |before|, false);
  }

  // ---- Power cycle ----

  /** The relay is off for the whole off time before it is told to go on. */
  ghost predicate OffLongEnough(log: seq<Relay.Call>, spans: seq<Span>, from: nat, offTime: nat) {
    && |spans| == |log|
    && forall i, j ::
         (from <= i < |log| && from <= j < |log|
          && log[i].request == Relay.Change(false) && log[j].request == Relay.Change(true)) ==>
         spans[i].ended + offTime <= spans[j].begun
  }

  /** Everything that the relay was told between two places of the log was to go this way. */
  ghost predicate ChangesIn(log: seq<Relay.Call>, from: nat, to: nat, on: bool) {
    forall k :: from <= k < to <= |log| && log[k].request.Change? ==> log[k].request == Relay.Change(on)
  }

  lemma SegmentChanges(profile: Relay.Profile, before: seq<Relay.Call>, after: seq<Relay.Call>, on: bool)
    requires Relay.Segment(profile, before, after, on)
    ensures before <= after && ChangesIn(after, |before|, |after|, on)
  {
    Relay.SwitchChangesOnce(profile, after, |before|, on);
    hide Relay.Switch, Relay.Query, Relay.Follows;
  }

  /** Commands of an off part end before a time, those of an on part begin the off time later. */
  lemma OffPartThenOnPart(log: seq<Relay.Call>, spans: seq<Span>, from: nat, mid: nat, time: nat, offTime: nat)
    requires |spans| == |log| && from <= mid <= |log|
    requires ChangesIn(log, from, mid, false) && ChangesIn(log, mid, |log|, true)
    requires forall i :: from <= i < mid ==> spans[i].ended <= time
    requires forall i :: mid <= i < |log| ==> time + offTime <= spans[i].begun
    ensures OffLongEnough(log, spans, from, offTime)
  {
  }

  /** The second half of a power cycle: one attempt to switch on, and another if it fails. first is the log after the one. */
  method RestorePower(board: Board, relay: PowerController)
    returns (r: Result<Relay.PowerObservation>, ghost first: seq<Relay.Call>)
    requires board.ring.Valid() && relay.Valid()
    modifies board`turn, board`clock, board.ring, relay
    ensures board.ring.Valid() && relay.Valid() && Extends(old(board.ring.history), board.ring.history)
    ensures old(relay.spans) <= relay.spans && relay.RanSince(old(relay.log), old(board.clock))
    ensures old(relay.log) <= relay.log && ChangesIn(relay.log, |old(relay.log)|, |relay.log|, true)
    ensures Relay.Segment(relay.profile, old(relay.log), first, true)
    ensures r == Relay.Switch(relay.profile, first, |old(relay.log)|, true).result
    ensures if r.Ok? then relay.log == first else Relay.Segment(relay.profile, first, relay.log, true)
    ensures r.Ok? ==> old(board.ring.history).generation < board.ring.history.generation
    ensures r != Err(Error(ConfirmationRequired, "confirmation"))
  {
    hide Covers, Extends, Relay.Switch, Relay.Follows, Relay.Segment;
    ghost var h0, l0 := board.ring.history, relay.log;
    relay.SyncTo(board.clock);
    r := relay.SetPower(true);
    first := relay.log;
    SegmentChanges(relay.profile, l0, first, true);
    board.SleepUntil(relay.clock);
    ghost var h1 := board.ring.history;
    if r.Ok? {
      var _ := board.ring.MarkGeneration();
      ExtendsTransitively(h0, h1, board.ring.history);
      ExtendsGeneration(h0, h1);
    } else {
      var _ := relay.SetPower(true);
      SegmentChanges(relay.profile, first, relay.log, true);
      board.SleepUntil(relay.clock);
      ExtendsTransitively(h0, h1, board.ring.history);
    }
  }

  method PowerCycle(board: Board, relay: PowerController, confirmed: bool, offTime: nat)
    returns (r: Result<Relay.PowerObservation>)
    requires board.ring.Valid() && relay.Valid()
    modifies board`turn, board`clock, board.ring, relay
    ensures board.ring.Valid() && relay.Valid() && Extends(old(board.ring.history), board.ring.history)
    ensures !confirmed <==> r == Err(Error(ConfirmationRequired, "confirmation"))
    ensures !confirmed ==>
              && relay.log == old(relay.log) && relay.clock == old(relay.clock)
              && board.ring.history == old(board.ring.history) && board.clock == old(board.clock)
    ensures Relay.Cycled(relay.profile, old(relay.log), relay.log, confirmed)
    ensures r == Relay.PowerCycle(relay.profile, relay.log, |old(relay.log)|, confirmed).result
    ensures OffLongEnough(relay.log, relay.spans, |old(relay.log)|, offTime)
    ensures r.Ok? ==> old(board.ring.history).generation < board.ring.history.generation
  {
    ghost var h0, l0 := board.ring.history, relay.log;
    ExtendsItself(h0);
    hide Covers, Extends, Relay.Switch, Relay.Follows, Relay.Segment, Relay.Cycled, Relay.PowerCycle;
    hide OffLongEnough, ChangesIn;
    if !confirmed {
      NothingCycled(relay.profile, l0);
      NothingChanged(l0, |l0|);
      NoOnPart(l0, relay.spans, |l0|, offTime);
      return Err(Error(ConfirmationRequired, "confirmation"));
    }
    relay.SyncTo(board.clock);
    var off := relay.SetPower(false);
    ghost var l1, ended := relay.log, relay.clock;
    SegmentChanges(relay.profile, l0, l1, false);
    board.SleepUntil(relay.clock);
    ghost var h1 := board.ring.history;
    if off.Err? {
      Relay.CycleStops(relay.profile, l0, l1);
      NoOnPart(l1, relay.spans, |l0|, offTime);
      return off;
    }
    board.Sleep(offTime);
    ExtendsTransitively(h0, h1, board.ring.history);
    h1 := board.ring.history;
    ghost var first;
    r, first := RestorePower(board, relay);
    ExtendsTransitively(h0, h1, board.ring.history);
    ExtendsGeneration(h0, h1);
    if r.Ok? {
      Relay.CycleSucceeds(relay.profile, l0, l1, first);
    } else {
      Relay.CycleRetries(relay.profile, l0, l1, first, relay.log);
    }
    ChangesPersist(l1, relay.log, |l0|, false);
    OffPartThenOnPart(relay.log, relay.spans, |l0|, |l1|, ended, offTime);
  }

  lemma NothingChanged(log: seq<Relay.Call>, at: nat)
    ensures ChangesIn(log, at, at, false)
  {
  }

  lemma NoOnPart(log: seq<Relay.Call>, spans: seq<Span>, from: nat, offTime: nat)
    requires |spans| == |log| && ChangesIn(log, from, |log|, false)
    ensures OffLongEnough(log, spans, from, offTime)
  {
  }

  lemma ChangesPersist(log: seq<Relay.Call>, later: seq<Relay.Call>, from: nat, on: bool)
    requires log <= later && ChangesIn(log, from, |log|, on)
    ensures ChangesIn(later, from, |log|, on)
  {
  }

  lemma NothingCycled(profile: Relay.Profile, log: seq<Relay.Call>)
    ensures Relay.Cycled(profile, log, log, false)
  {
  }

  // ---- Console commands ----

  /** The bytes that `ConsoleCommand` judges: what the ring still holds of those that arrived since it was sent. */
  method CommandOutput(board: Board, start: nat) returns (output: Bytes)
    requires board.ring.Valid()
    ensures output == CursorWindow(board.ring.history, board.ring.capacity, start)
  {
    var snapshot := board.ring.SnapshotFrom(start, WINDOW);
    SnapshotFromIsSlice(board.ring.history, board.ring.capacity, start, WINDOW, snapshot);
    output := Flatten(snapshot.chunks);
  }

  /** At some moment since before, the terminal's prompt was observed in the output that followed before. */
  ghost predicate PromptSeen(p: Patterns, capacity: nat, before: History, after: History, terminal: BoardState) {
    exists seen: History ::
      && Extends(before, seen) && Extends(seen, after)
      && Observe(p, CursorWindow(seen, capacity, |before.bytes|)).state == terminal
  }

  lemma SawPrompt(p: Patterns, capacity: nat, before: History, sent: History, seen: History, after: History, terminal: BoardState)
    requires Extends(before, sent) && Extends(sent, seen) && Extends(seen, after)
    requires Observe(p, CursorWindow(seen, capacity, |before.bytes|)).state == terminal
    ensures PromptSeen(p, capacity, before, after, terminal)
  {
    ExtendsTransitively(before, sent, seen);
  }

  /**
   Nothing is written for a command that is not one line. A command is judged only after its prompt
   has come back, and then by its output alone.
   */
  method ConsoleCommand(board: Board, command: Bytes, marker: Bytes, linux: bool, timeout: nat)
    returns (r: Result<Bytes>)
    requires board.ring.Valid()
    modifies board`turn, board`clock, board`written, board`deeds, board`looks, board.ring
    ensures board.ring.Valid()
    ensures board.written == old(board.written) || Framing.IsOneLine(command)
    ensures r.Ok? || r.error.phase == "command" ==>
              && board.written == old(board.written) + Framing.Wire(command, marker, linux)
              && var output := CursorWindow(board.ring.history, board.ring.capacity, |old(board.ring.history).bytes|);
                 r == if linux then Framing.Verdict(output, marker) else Ok(output)
    ensures r.Ok? || r.error.phase == "command" ==>
              PromptSeen(board.patterns, board.ring.capacity, old(board.ring.history), board.ring.history,
                         if linux then LinuxShell else UbootPrompt)
    ensures r == Err(Error(CommandDenied, "policy")) <==> !Framing.IsOneLine(command)
    ensures r.Err? && r.error.phase != "command" ==>
              || (!Framing.IsOneLine(command) && r.error == Error(CommandDenied, "policy")
                  && board.deeds == old(board.deeds) && board.ring.history == old(board.ring.history))
              || (r.error == Error(SerialDisconnected, "serial_write") && board.environment.portFails(board.turn))
              || (r.error == Error(StateTimeout, "state_wait")
                  && board.written == old(board.written) + Framing.Wire(command, marker, linux)
                  && old(board.clock) + timeout <= board.clock
                  && Observe(board.patterns, CursorWindow(board.ring.history, board.ring.capacity,
                                                          |old(board.ring.history).bytes|)).state
                     != (if linux then LinuxShell else UbootPrompt))
  {
    ghost var before := board.ring.history;
    hide *;
    var terminal := if linux then LinuxShell else UbootPrompt;
    var _ :- Framing.ValidateOneLine(command);
    var start := board.NextCursor();
    var _ :- board.WriteConsole(Framing.Wire(command, marker, linux));
    ghost var sent := board.ring.history;
    var _ :- board.WaitForStatesAfter([terminal], timeout, start);
    ghost var seen := board.ring.history;
    board.Yield();
    SawPrompt(board.patterns, board.ring.capacity, before, sent, seen, board.ring.history, terminal);
    var output := CommandOutput(board, start);
    r := if linux then Framing.Verdict(output, marker) else Ok(output);
  }
}
