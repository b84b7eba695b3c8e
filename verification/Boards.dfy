/**
 One board as the thread of a running operation sees it: the serial ring, which other threads
 keep changing, the UART it writes to, and the clock. The loops that wait for a board state are here.
 */
module Boards {
  import opened Basics
  import opened Serial
  import opened Snapshots
  import opened Detector

  /** How many bytes a state decision looks at. */
  const WINDOW := 65536

  /** What another thread may do to the ring. */
  datatype Traffic = Arrived(input: Bytes) | GenerationMarked

  /**
   Everything that is not under this thread's control, by the number of turns it has taken:
   what the other threads do to the ring, how long that takes, and whether the serial port fails.
   */
  datatype Environment = Environment(
    traffic: nat -> seq<Traffic>,
    elapsed: nat -> nat,
    portFails: nat -> bool
  )

  /** The bytes on which `ObservedState` decides: the newest of the current generation. */
  ghost function GenerationWindow(h: History, capacity: nat): Bytes {
    Slice(h.bytes, WindowStart(h, capacity, h.generation, WINDOW), |h.bytes|)
  }

  /** The bytes on which a wait for fresh output decides: the oldest at or after its cursor. */
  ghost function CursorWindow(h: History, capacity: nat, cursor: nat): Bytes {
    var start := Max(cursor, h.Oldest(capacity));
    Slice(h.bytes, start, start + WINDOW)
  }

  /** What the thread did, in order: reading the next cursor, and writing to the UART from one time to another. */
  datatype Deed = CursorRead(seen: History) | Wrote(bytes: Bytes, begun: nat, ended: nat)

  class Board {
    const patterns: Patterns
    const interrupt: Bytes
    const pacing: nat
    const ring: SerialRing
    const environment: Environment
    var turn: nat
    var clock: nat
    var written: Bytes
    ghost var deeds: seq<Deed>
    ghost var looks: seq<nat>

    constructor (patterns: Patterns, interrupt: Bytes, pacing: nat, ring: SerialRing, environment: Environment)
      ensures this.patterns == patterns && this.interrupt == interrupt && this.ring == ring && written == [] && deeds == [] && looks == []
    {
      this.patterns, this.interrupt, this.pacing := patterns, interrupt, pacing;
      this.ring, this.environment := ring, environment;
      turn, clock, written, deeds, looks := 0, 0, [], [], [];
    }

    /** The other threads run, for as long as they please. */
    method Yield()
      requires ring.Valid()
      modifies `turn, `clock, ring
      ensures ring.Valid() && Extends(old(ring.history), ring.history)
      ensures old(clock) <= clock && turn == old(turn) + 1
    {
      hide Covers;
      var traffic := environment.traffic(turn);
      for i := 0 to |traffic|
        invariant ring.Valid() && Extends(old(ring.history), ring.history)
        invariant clock == old(clock) && turn == old(turn)
      {
        ghost var before := ring.history;
        match traffic[i] {
          case Arrived(input) => var _ := ring.Append(input);
          case GenerationMarked => var _ := ring.MarkGeneration();
        }
        ExtendsTransitively(old(ring.history), before, ring.history);
      }
      clock := clock + environment.elapsed(turn);
      turn := turn + 1;
    }

    method Sleep(duration: nat)
      requires ring.Valid()
      modifies `turn, `clock, ring
      ensures ring.Valid() && Extends(old(ring.history), ring.history)
      ensures old(clock) + duration <= clock && turn == old(turn) + 1
    {
      clock := clock + duration;
      Yield();
    }

    /** The other threads run until this time at least. */
    method SleepUntil(time: nat)
      requires ring.Valid()
      modifies `turn, `clock, ring
      ensures ring.Valid() && Extends(old(ring.history), ring.history)
      ensures Max(old(clock), time) <= clock
    {
      Sleep(Max(0, time - clock));
    }

    method NextCursor() returns (cursor: nat)
      requires ring.Valid()
      modifies `deeds
      ensures cursor == |ring.history.bytes|
      ensures deeds == old(deeds) + [CursorRead(ring.history)]
    {
      cursor := ring.nextCursor;
      deeds := deeds + [CursorRead(ring.history)];
    }

    /** Bytes go out one at a time; after a port failure, what went out is a prefix. */
    method WriteConsole(bytes: Bytes) returns (r: Result<Unit>)
      requires ring.Valid()
      modifies `turn, `clock, `written, `deeds, ring
      ensures ring.Valid() && Extends(old(ring.history), ring.history)
      ensures old(clock) <= clock
      ensures old(written) <= written <= old(written) + bytes
      ensures r.Ok? ==> written == old(written) + bytes
      ensures deeds == old(deeds) + [Wrote(written[|old(written)|..], old(clock), clock)]
      ensures r.Ok? ==> old(clock) + |bytes| * pacing <= clock
      ensures r.Err? ==> r.error == Error(SerialDisconnected, "serial_write") && environment.portFails(turn)
    {
      hide Covers, Extends;
      ExtendsItself(ring.history);
      for i := 0 to |bytes|
        invariant ring.Valid() && Extends(old(ring.history), ring.history)
        invariant old(clock) + i * pacing <= clock
        invariant written == old(written) + bytes[..i]
        invariant deeds == old(deeds)
      {
        if environment.portFails(turn) {
          deeds := deeds + [Wrote(written[|old(written)|..], old(clock), clock)];
          return Err(Error(SerialDisconnected, "serial_write"));
        }
        written := written + [bytes[i]];
        ghost var before := ring.history;
        Sleep(pacing);
        ExtendsTransitively(old(ring.history), before, ring.history);
      }
      deeds := deeds + [Wrote(written[|old(written)|..], old(clock), clock)];
      if environment.portFails(turn) {
        return Err(Error(SerialDisconnected, "serial_write"));
      }
      return Ok(Unit);
    }

    /** Since a moment this thread has looked for evidence before its deadline only, but for its last look. */
    ghost predicate LookedUntil(before: seq<nat>, deadline: nat)
      reads `looks, `clock
    {
      && before <= looks
      && (forall i :: |before| <= i < |looks| ==> looks[i] <= clock)
      && (forall i :: |before| <= i < |looks| - 1 ==> looks[i] < deadline)
    }

    method ObservedState() returns (state: BoardState)
      requires ring.Valid()
      ensures state == Observe(patterns, GenerationWindow(ring.history, ring.capacity)).state
    {
      var snapshot := ring.SnapshotGeneration(ring.generation, WINDOW);
      CurrentGenerationEndsHistory(ring.history, ring.capacity);
      SnapshotOfGenerationIsSlice(ring.history, ring.capacity, ring.generation, WINDOW, snapshot);
      state := Observe(patterns, Flatten(snapshot.chunks)).state;
    }

    method WaitForStates(states: seq<BoardState>, timeout: nat, generation: Option<nat>) returns (r: Result<BoardState>)
      requires ring.Valid()
      modifies `turn, `clock, `looks, ring
      ensures ring.Valid() && Extends(old(ring.history), ring.history)
      ensures old(clock) + 100 * (turn - old(turn)) <= clock && old(turn) <= turn
      ensures old(clock) <= clock
      ensures LookedUntil(old(looks), old(clock) + timeout)
      ensures r.Ok? ==> r.value in states
      ensures r.Ok? ==> r.value == Observe(patterns, GenerationWindow(ring.history, ring.capacity)).state
      ensures r.Ok? && generation.Some? ==> ring.history.generation == generation.value
      ensures r.Err? ==> r.error == Error(StateTimeout, "state_wait") && old(clock) + timeout <= clock
      ensures r.Err? ==>
                || Observe(patterns, GenerationWindow(ring.history, ring.capacity)).state !in states
                || (generation.Some? && ring.history.generation != generation.value)
    {
      hide Covers;
      var deadline := clock + timeout;
      while true
        invariant ring.Valid() && Extends(old(ring.history), ring.history)
        invariant old(clock) <= clock
        invariant old(looks) <= looks
        invariant forall i :: |old(looks)| <= i < |looks| ==> looks[i] <= clock && looks[i] < deadline
        invariant old(turn) <= turn && old(clock) + 100 * (turn - old(turn)) <= clock
        decreases deadline - clock
      {
        looks := looks + [clock];
        if generation.None? || generation.value == ring.generation {
          var state := ObservedState();
          if state in states {
            return Ok(state);
          }
        }
        if clock >= deadline {
          return Err(Error(StateTimeout, "state_wait"));
        }
        ghost var before := ring.history;
        Sleep(100);
        ExtendsTransitively(old(ring.history), before, ring.history);
      }
    }

    /** check is asked before each poll, by the number of turns taken; its error ends the wait. */
    method WaitForStatesAfterChecked(
        states: seq<BoardState>, timeout: nat, cursor: nat, check: nat -> Result<Unit>)
      returns (r: Result<BoardState>)
      requires ring.Valid()
      modifies `turn, `clock, `looks, ring
      ensures ring.Valid() && Extends(old(ring.history), ring.history)
      ensures old(clock) + 100 * (turn - old(turn)) <= clock && old(turn) <= turn
      ensures old(clock) <= clock
      ensures LookedUntil(old(looks), old(clock) + timeout)
      ensures r.Ok? ==> r.value in states
      ensures r.Ok? ==> r.value == Observe(patterns, CursorWindow(ring.history, ring.capacity, cursor)).state
      ensures r.Err? ==>
                || check(turn) == Err(r.error)
                || (r.error == Error(StateTimeout, "state_wait")
                    && old(clock) + timeout <= clock
                    && Observe(patterns, CursorWindow(ring.history, ring.capacity, cursor)).state !in states)
    {
      hide Covers;
      var deadline := clock + timeout;
      while true
        invariant ring.Valid() && Extends(old(ring.history), ring.history)
        invariant old(clock) <= clock
        invariant old(looks) <= looks
        invariant forall i :: |old(looks)| <= i < |looks| ==> looks[i] <= clock && looks[i] < deadline
        invariant old(turn) <= turn && old(clock) + 100 * (turn - old(turn)) <= clock
        decreases deadline - clock
      {
        var _ :- check(turn);
        looks := looks + [clock];
        var snapshot := ring.SnapshotFrom(cursor, WINDOW);
        SnapshotFromIsSlice(ring.history, ring.capacity, cursor, WINDOW, snapshot);
        var state := Observe(patterns, Flatten(snapshot.chunks)).state;
        if state in states {
          return Ok(state);
        }
        if clock >= deadline {
          return Err(Error(StateTimeout, "state_wait"));
        }
        ghost var before := ring.history;
        Sleep(100);
        ExtendsTransitively(old(ring.history), before, ring.history);
      }
    }

    method WaitForStatesAfter(states: seq<BoardState>, timeout: nat, cursor: nat) returns (r: Result<BoardState>)
      requires ring.Valid()
      modifies `turn, `clock, `looks, ring
      ensures ring.Valid() && Extends(old(ring.history), ring.history)
      ensures old(clock) + 100 * (turn - old(turn)) <= clock && old(turn) <= turn
      ensures old(clock) <= clock
      ensures LookedUntil(old(looks), old(clock) + timeout)
      ensures r.Ok? ==> r.value in states
      ensures r.Ok? ==> r.value == Observe(patterns, CursorWindow(ring.history, ring.capacity, cursor)).state
      ensures r.Err? ==>
                && r.error == Error(StateTimeout, "state_wait")
                && old(clock) + timeout <= clock
                && Observe(patterns, CursorWindow(ring.history, ring.capacity, cursor)).state !in states
    {
      r := WaitForStatesAfterChecked(states, timeout, cursor, _ => Ok(Unit));
    }
  }

  // ---- What a decision on a window says about the history ----

  /** A decision on the current state sees the newest 65536 retained bytes of the generation, or all of them. */
  lemma GenerationWindowSize(h: History, capacity: nat)
    requires h.Valid() && 0 < capacity
    ensures
      var retained := h.bytes[GenerationLow(h, capacity, h.generation)..];
      GenerationWindow(h, capacity) == retained[Max(0, |retained| - 65536)..]
  {
    CurrentGenerationEndsHistory(h, capacity);
    hide GenerationStart, History.Valid;
  }

  /** A wait for fresh output sees the oldest 65536 retained bytes after its cursor, or all of them. */
  lemma CursorWindowSize(h: History, capacity: nat, cursor: nat)
    ensures
      var rest := h.bytes[Min(Max(cursor, h.Oldest(capacity)), |h.bytes|)..];
      CursorWindow(h, capacity, cursor) == rest[..Min(|rest|, 65536)]
  {
    var lo := Min(Max(cursor, h.Oldest(capacity)), |h.bytes|);
    var size := Min(|h.bytes| - lo, 65536);
    assert CursorWindow(h, capacity, cursor) == h.bytes[lo..lo + size];
    SliceOfSlice(h.bytes, lo, |h.bytes|, 0, size);
    assert h.bytes[lo..] == h.bytes[lo..|h.bytes|];
  }

  /** The k-th pattern wins in this window of the history, by the occurrence at this place. */
  ghost predicate Decides(p: Patterns, h: History, lo: nat, hi: nat, k: nat, at: nat) {
    && k < 6
    && lo <= at
    && Candidate(p, h.bytes, k, at)
    && at + |Pattern(p, k)| <= hi
    && (forall j: nat, i: nat :: j < 6 && lo <= i && Candidate(p, h.bytes, j, i) && i + |Pattern(p, j)| <= hi ==>
          i < at || (i == at && j <= k))
  }

  lemma CandidateInSlice(p: Patterns, text: Bytes, lo: nat, hi: nat, k: nat, i: nat)
    requires lo <= hi <= |text|
    requires k < 6
    ensures Candidate(p, text[lo..hi], k, i) <==> Candidate(p, text, k, lo + i) && lo + i + |Pattern(p, k)| <= hi
  {
    if lo + i + |Pattern(p, k)| <= hi {
      SliceOfSlice(text, lo, hi, i, i + |Pattern(p, k)|);
    }
  }

  lemma DecidesIsWin(p: Patterns, h: History, lo: nat, hi: nat, k: nat, at: nat)
    requires lo <= hi <= |h.bytes| && lo <= at && k < 6
    ensures Decides(p, h, lo, hi, k, at) <==> Wins(p, h.bytes[lo..hi], 6, Match(at - lo, k))
  {
    hide Candidate;
    var text := h.bytes[lo..hi];
    CandidateInSlice(p, h.bytes, lo, hi, k, at - lo);
    if Decides(p, h, lo, hi, k, at) {
      forall j: nat, i: nat | j < 6 && Candidate(p, text, j, i)
        ensures i < at - lo || (i == at - lo && j <= k)
      {
        CandidateInSlice(p, h.bytes, lo, hi, j, i);
      }
    }
    if Wins(p, text, 6, Match(at - lo, k)) {
      forall j: nat, i: nat | j < 6 && lo <= i && Candidate(p, h.bytes, j, i) && i + |Pattern(p, j)| <= hi
        ensures i < at || (i == at && j <= k)
      {
        CandidateInSlice(p, h.bytes, lo, hi, j, i - lo);
      }
    }
  }

  /** A state seen in a window is decided by an occurrence in the history, wholly inside the window. */
  lemma WindowDecides(p: Patterns, h: History, lo: nat, hi: nat, k: nat)
    requires lo <= hi <= |h.bytes| && k < 6
    ensures Observe(p, h.bytes[lo..hi]).state == DETECTABLE[k] <==> exists at: nat :: Decides(p, h, lo, hi, k, at)
  {
    hide Wins;
    var text := h.bytes[lo..hi];
    ObservedStateMeaning(p, text, k);
    if at: nat :| Wins(p, text, 6, Match(at, k)) {
      DecidesIsWin(p, h, lo, hi, k, lo + at);
    }
    if at: nat :| Decides(p, h, lo, hi, k, at) {
      DecidesIsWin(p, h, lo, hi, k, at);
    }
  }

  /**
   The bounded view agrees with the unbounded one: over the retained, at most 64 KiB window, the
   current state is unknown or exactly what the whole output of the generation shows.
   */
  lemma BoundedViewAgrees(p: Patterns, h: History, capacity: nat)
    requires h.Valid() && 0 < capacity
    ensures
      var seen := Observe(p, GenerationWindow(h, capacity));
      seen.state == Unknown || seen == Observe(p, h.bytes[GenerationStart(h.tags, h.generation)..])
  {
    var whole := h.bytes[GenerationStart(h.tags, h.generation)..];
    var n := WindowStart(h, capacity, h.generation, WINDOW) - GenerationStart(h.tags, h.generation);
    CurrentGenerationEndsHistory(h, capacity);
    assert GenerationWindow(h, capacity) == whole[n..];
    SuffixAgrees(p, whole, n);
    LatestMeaning(p, whole[n..]);
  }

  /**
   A wait for fresh output accepts no stale evidence: what it matched lies wholly at or after its
   cursor, and every byte it looked at is at least as new as any generation marked before the cursor.
   */
  lemma FreshWaitUsesFreshEvidence(p: Patterns, marked: History, h: History, capacity: nat, cursor: nat, k: nat)
    requires Extends(marked, h) && |marked.bytes| <= cursor && k < 6
    requires Observe(p, CursorWindow(h, capacity, cursor)).state == DETECTABLE[k]
    ensures
      var lo := Min(Max(cursor, h.Oldest(capacity)), |h.bytes|);
      var hi := Min(lo + WINDOW, |h.bytes|);
      && cursor <= lo
      && (exists at: nat :: Decides(p, h, lo, hi, k, at))
      && (forall i :: lo <= i < hi ==> marked.generation <= h.tags[i])
  {
    var lo := Min(Max(cursor, h.Oldest(capacity)), |h.bytes|);
    var hi := Min(lo + WINDOW, |h.bytes|);
    assert CursorWindow(h, capacity, cursor) == h.bytes[lo..hi];
    WindowDecides(p, h, lo, hi, k);
  }

  /** When the deciding snapshot is not truncated, the wait decides on everything after its cursor. */
  lemma UntruncatedWaitIsComplete(p: Patterns, h: History, capacity: nat, cursor: nat, s: Snapshot)
    requires h.Valid() && cursor <= |h.bytes|
    requires IsSnapshotFrom(h, capacity, cursor, WINDOW, s) && !s.truncated
    ensures Observe(p, CursorWindow(h, capacity, cursor)) == Observe(p, h.bytes[cursor..])
  {
    TruncationIsExact(h, capacity, cursor, WINDOW, s);
    SnapshotFromIsSlice(h, capacity, cursor, WINDOW, s);
  }
}
