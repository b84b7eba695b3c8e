/** What the two kinds of snapshot mean for the history behind the ring, and for readers that poll it. */
module Snapshots {
  import opened Basics
  import opened Serial

  /** A cursor snapshot is a slice of the history: the oldest retained bytes at or after the cursor. */
  lemma SnapshotFromIsSlice(h: History, capacity: nat, cursor: nat, maxBytes: nat, s: Snapshot)
    requires h.Valid() && IsSnapshotFrom(h, capacity, cursor, maxBytes, s)
    ensures
      var start := Max(cursor, h.Oldest(capacity));
      && Flatten(s.chunks) == Slice(h.bytes, start, start + maxBytes)
      && s.nextCursor == start + |Flatten(s.chunks)|
  {
    hide Covers;
    var start := Max(cursor, h.Oldest(capacity));
    CoversBounds(s.chunks, start, s.nextCursor, h);
    if s.chunks != [] { CoversFlatten(s.chunks, start, s.nextCursor, h); }
  }

  /** The truncation flag is exact: it is set when, and only when, the answer is not the whole rest of the history. */
  lemma TruncationIsExact(h: History, capacity: nat, cursor: nat, maxBytes: nat, s: Snapshot)
    requires h.Valid() && IsSnapshotFrom(h, capacity, cursor, maxBytes, s)
    requires cursor <= |h.bytes|
    ensures s.truncated <==> Flatten(s.chunks) != h.bytes[cursor..]
  {
    hide Covers;
    SnapshotFromIsSlice(h, capacity, cursor, maxBytes, s);
  }

  /** The retained positions of one generation are one interval, and all of it carries that tag. */
  lemma GenerationInterval(h: History, capacity: nat, g: nat)
    requires h.Valid()
    ensures
      forall i :: h.Oldest(capacity) <= i < |h.bytes| ==>
        (h.tags[i] == g <==> GenerationLow(h, capacity, g) <= i < GenerationHigh(h, capacity, g))
  {
    GenerationStartSplits(h.tags, g);
    GenerationStartSplits(h.tags, g + 1);
  }

  /** A generation snapshot is the newest part of that interval. */
  lemma SnapshotOfGenerationIsSlice(h: History, capacity: nat, g: nat, maxBytes: nat, s: Snapshot)
    requires h.Valid() && IsSnapshotOfGeneration(h, capacity, g, maxBytes, s)
    ensures
      var low, high := GenerationLow(h, capacity, g), GenerationHigh(h, capacity, g);
      && Flatten(s.chunks) == Slice(h.bytes, WindowStart(h, capacity, g, maxBytes), high)
      && |Flatten(s.chunks)| == Min(maxBytes, high - low)
      && (s.truncated <==> |Flatten(s.chunks)| < high - low)
  {
    hide Covers;
    var start, high := WindowStart(h, capacity, g, maxBytes), GenerationHigh(h, capacity, g);
    CoversBounds(s.chunks, start, high, h);
    if s.chunks != [] { CoversFlatten(s.chunks, start, high, h); }
  }

  /** Nothing is newer than the current generation, and what is retained of it ends the history. */
  lemma CurrentGenerationEndsHistory(h: History, capacity: nat)
    requires h.Valid() && 0 < capacity
    ensures GenerationHigh(h, capacity, h.generation) == |h.bytes|
  {
    GenerationStartSplits(h.tags, h.generation + 1);
  }

  /** Reading the current generation is reading from a cursor: the two snapshots agree. */
  lemma GenerationSnapshotAgreesWithCursor(
      h: History, capacity: nat, maxBytes: nat, byGeneration: Snapshot, byCursor: Snapshot)
    requires h.Valid() && 0 < capacity
    requires IsSnapshotOfGeneration(h, capacity, h.generation, maxBytes, byGeneration)
    requires
      var cursor := Max(Max(h.Oldest(capacity), GenerationStart(h.tags, h.generation)), |h.bytes| - maxBytes);
      IsSnapshotFrom(h, capacity, cursor, maxBytes, byCursor)
    ensures Flatten(byGeneration.chunks) == Flatten(byCursor.chunks)
    ensures byGeneration.nextCursor == byCursor.nextCursor
  {
    hide Covers;
    var cursor := Max(Max(h.Oldest(capacity), GenerationStart(h.tags, h.generation)), |h.bytes| - maxBytes);
    CurrentGenerationEndsHistory(h, capacity);
    SnapshotOfGenerationIsSlice(h, capacity, h.generation, maxBytes, byGeneration);
    SnapshotFromIsSlice(h, capacity, cursor, maxBytes, byCursor);
  }

  // ---- A reader that polls, each time from where the last poll stopped ----

  datatype Event = Received(input: Bytes) | Marked | Polled(maxBytes: nat)

  /** One poll: where it was asked to start, the oldest byte retained by then, and its answer. */
  datatype Poll = Poll(cursor: nat, oldest: nat, bytes: Bytes, next: nat)

  /** The history after a run of events. */
  ghost function After(h: History, events: seq<Event>): History
    decreases |events|
  {
    if events == [] then h
    else
      match events[0]
      case Received(input) => After(h.Append(input), events[1..])
      case Marked => After(h.Mark(), events[1..])
      case Polled(_) => After(h, events[1..])
  }

  /** polls are the answers the ring gives over a run of events that starts in h, the first from cursor. */
  ghost predicate PollsOf(h: History, capacity: nat, cursor: nat, events: seq<Event>, polls: seq<Poll>)
    requires h.Valid()
    decreases |events|
  {
    if events == [] then polls == []
    else
      match events[0]
      case Received(input) =>
        AppendExtends(h, input);
        PollsOf(h.Append(input), capacity, cursor, events[1..], polls)
      case Marked => PollsOf(h.Mark(), capacity, cursor, events[1..], polls)
      case Polled(maxBytes) =>
        && polls != []
        && polls[0].cursor == cursor
        && polls[0].oldest == h.Oldest(capacity)
        && (exists s: Snapshot ::
              && IsSnapshotFrom(h, capacity, cursor, maxBytes, s)
              && polls[0].bytes == Flatten(s.chunks)
              && polls[0].next == s.nextCursor)
        && PollsOf(h, capacity, polls[0].next, events[1..], polls[1..])
  }

  /** The ring itself gives such answers over every run. */
  method Replay(ring: SerialRing, cursor: nat, events: seq<Event>) returns (polls: seq<Poll>)
    requires ring.Valid()
    modifies ring
    ensures ring.Valid()
    ensures ring.history == After(old(ring.history), events)
    ensures PollsOf(old(ring.history), ring.capacity, cursor, events, polls)
    decreases |events|
  {
    hide Retains, IsSnapshotFrom;
    if events == [] {
      return [];
    }
    match events[0]
    case Received(input) =>
      var _ := ring.Append(input);
      polls := Replay(ring, cursor, events[1..]);
    case Marked =>
      var _ := ring.MarkGeneration();
      polls := Replay(ring, cursor, events[1..]);
    case Polled(maxBytes) =>
      var oldest := ring.OldestCursor();
      var s := ring.SnapshotFrom(cursor, maxBytes);
      var rest := Replay(ring, s.nextCursor, events[1..]);
      polls := [Poll(cursor, oldest, Flatten(s.chunks), s.nextCursor)] + rest;
  }

  function FinalCursor(cursor: nat, polls: seq<Poll>): nat {
    if polls == [] then cursor else polls[|polls| - 1].next
  }

  function Collected(polls: seq<Poll>): Bytes {
    if polls == [] then [] else polls[0].bytes + Collected(polls[1..])
  }

  /** What the polls returned, with the bytes each late poll found evicted put back in front of it. */
  ghost function WithEvicted(polls: seq<Poll>, whole: Bytes): Bytes {
    if polls == [] then []
    else Slice(whole, polls[0].cursor, polls[0].oldest) + polls[0].bytes + WithEvicted(polls[1..], whole)
  }

  lemma {:induction false} AfterExtends(h: History, events: seq<Event>)
    requires h.Valid()
    ensures Extends(h, After(h, events))
    decreases |events|
  {
    if events != [] {
      match events[0]
      case Received(input) =>
        AppendExtends(h, input);
        AfterExtends(h.Append(input), events[1..]);
        ExtendsTransitively(h, h.Append(input), After(h, events));
      case Marked =>
        AfterExtends(h.Mark(), events[1..]);
        ExtendsTransitively(h, h.Mark(), After(h, events));
      case Polled(_) =>
        AfterExtends(h, events[1..]);
    }
  }

  /**
   Polling loses exactly what was evicted. Over any run of appends, generation marks and polls,
   the answers with the evicted intervals put back are the history from the first cursor to the
   last: nothing is repeated, reordered or silently skipped.
   */
  lemma {:induction false} PollsPartitionHistory(
      h: History, capacity: nat, cursor: nat, events: seq<Event>, polls: seq<Poll>)
    requires h.Valid() && PollsOf(h, capacity, cursor, events, polls)
    ensures cursor <= FinalCursor(cursor, polls)
    ensures WithEvicted(polls, After(h, events).bytes) == Slice(After(h, events).bytes, cursor, FinalCursor(cursor, polls))
    decreases |events|
  {
    if events != [] {
      match events[0]
      case Received(input) =>
        AppendExtends(h, input);
        PollsPartitionHistory(h.Append(input), capacity, cursor, events[1..], polls);
      case Marked =>
        PollsPartitionHistory(h.Mark(), capacity, cursor, events[1..], polls);
      case Polled(maxBytes) =>
        hide IsSnapshotFrom, Slice;
        var whole := After(h, events).bytes;
        var s: Snapshot :| && IsSnapshotFrom(h, capacity, cursor, maxBytes, s)
                           && polls[0].bytes == Flatten(s.chunks)
                           && polls[0].next == s.nextCursor;
        AfterExtends(h, events[1..]);
        PollIsSlice(h, capacity, cursor, maxBytes, s, After(h, events));
        PollsPartitionHistory(h, capacity, polls[0].next, events[1..], polls[1..]);
        assert FinalCursor(cursor, polls) == FinalCursor(polls[0].next, polls[1..]);
        SliceJoin(whole, cursor, polls[0].next, FinalCursor(cursor, polls));
    }
  }

  /** One late or punctual poll, seen from any later moment. */
  lemma PollIsSlice(h: History, capacity: nat, cursor: nat, maxBytes: nat, s: Snapshot, later: History)
    requires h.Valid() && IsSnapshotFrom(h, capacity, cursor, maxBytes, s) && Extends(h, later)
    ensures cursor <= s.nextCursor
    ensures Slice(later.bytes, cursor, h.Oldest(capacity)) + Flatten(s.chunks) == Slice(later.bytes, cursor, s.nextCursor)
  {
    hide Covers;
    SnapshotFromIsSlice(h, capacity, cursor, maxBytes, s);
    var start := Max(cursor, h.Oldest(capacity));
    assert Flatten(s.chunks) == Slice(later.bytes, start, s.nextCursor);
    SliceJoin(later.bytes, cursor, start, s.nextCursor);
    assert Slice(later.bytes, cursor, h.Oldest(capacity)) == Slice(later.bytes, cursor, start);
  }

  lemma SliceJoin(s: Bytes, lo: nat, mid: nat, hi: nat)
    requires lo <= mid <= hi
    ensures Slice(s, lo, mid) + Slice(s, mid, hi) == Slice(s, lo, hi)
  {
  }

  /** A reader that is never late gets the history itself. */
  lemma {:induction false} PunctualPollsLoseNothing(
      h: History, capacity: nat, cursor: nat, events: seq<Event>, polls: seq<Poll>)
    requires h.Valid() && PollsOf(h, capacity, cursor, events, polls)
    requires forall i :: 0 <= i < |polls| ==> polls[i].oldest <= polls[i].cursor
    ensures Collected(polls) == Slice(After(h, events).bytes, cursor, FinalCursor(cursor, polls))
  {
    PollsPartitionHistory(h, capacity, cursor, events, polls);
    NothingEvicted(polls, After(h, events).bytes);
  }

  lemma {:induction false} NothingEvicted(polls: seq<Poll>, whole: Bytes)
    requires forall i :: 0 <= i < |polls| ==> polls[i].oldest <= polls[i].cursor
    ensures WithEvicted(polls, whole) == Collected(polls)
  {
    if polls != [] {
      NothingEvicted(polls[1..], whole);
    }
  }
}
