/**
 The bounded serial ring against the unbounded UART stream it stands for.

 A `History` is every byte ever received, each tagged with the console generation that was
 current when it arrived. `SerialRing` keeps only the newest bytes of it, in chunks.
 */
module Serial {
  import opened Basics

  datatype Chunk = Chunk(cursor: nat, generation: nat, bytes: Bytes)

  datatype Snapshot = Snapshot(chunks: seq<Chunk>, nextCursor: nat, truncated: bool)

  function Flatten(chunks: seq<Chunk>): Bytes {
    if chunks == [] then [] else chunks[0].bytes + Flatten(chunks[1..])
  }

  datatype History = History(bytes: Bytes, tags: seq<nat>, generation: nat) {
    ghost predicate Valid() {
      && |bytes| == |tags|
      && (forall i, j :: 0 <= i <= j < |tags| ==> tags[i] <= tags[j])
      && (forall i :: 0 <= i < |tags| ==> tags[i] <= generation)
    }

    ghost function Append(input: Bytes): History {
      History(bytes + input, tags + seq(|input|, _ => generation), generation)
    }

    ghost function Mark(): History {
      this.(generation := generation + 1)
    }

    /** The oldest position a ring of this capacity still retains. */
    ghost function Oldest(capacity: nat): nat {
      Max(0, |bytes| - capacity)
    }
  }

  /** later is earlier after any number of appends and generation marks. */
  ghost predicate Extends(earlier: History, later: History) {
    && earlier.Valid()
    && later.Valid()
    && earlier.bytes <= later.bytes
    && earlier.tags <= later.tags
    && earlier.generation <= later.generation
    && (forall i :: |earlier.tags| <= i < |later.tags| ==> earlier.generation <= later.tags[i])
  }

  lemma ExtendsItself(h: History)
    requires h.Valid()
    ensures Extends(h, h)
  {
  }

  lemma ExtendsTransitively(a: History, b: History, c: History)
    requires Extends(a, b) && Extends(b, c)
    ensures Extends(a, c)
  {
    forall i | |a.tags| <= i < |c.tags|
      ensures a.generation <= c.tags[i]
    {
      if i < |b.tags| {
        assert b.tags[i] == c.tags[i];
      }
    }
  }

  /** The first position whose tag is at least g: everything older than generation g precedes it. */
  ghost function GenerationStart(tags: seq<nat>, g: nat): (n: nat)
    ensures n <= |tags|
  {
    if tags == [] || tags[0] >= g then 0 else 1 + GenerationStart(tags[1..], g)
  }

  lemma {:induction false} GenerationStartSplits(tags: seq<nat>, g: nat)
    ensures forall i :: 0 <= i < GenerationStart(tags, g) ==> tags[i] < g
    ensures GenerationStart(tags, g) < |tags| ==> tags[GenerationStart(tags, g)] >= g
  {
    if tags != [] && tags[0] < g {
      GenerationStartSplits(tags[1..], g);
      assert forall i :: 0 < i < GenerationStart(tags, g) ==> tags[i] == tags[1..][i - 1];
    }
  }

  /** Nonempty chunks, one after the other, that hold exactly positions lo up to hi of h. */
  ghost predicate Covers(chunks: seq<Chunk>, lo: nat, hi: nat, h: History)
    requires h.Valid()
    decreases |chunks|
  {
    if chunks == [] then lo == hi
    else
      var end := lo + |chunks[0].bytes|;
      && chunks[0].cursor == lo
      && lo < end <= hi <= |h.bytes|
      && chunks[0].bytes == h.bytes[lo..end]
      && (forall i :: lo <= i < end ==> h.tags[i] == chunks[0].generation)
      && Covers(chunks[1..], end, hi, h)
  }

  lemma CoversNothing(lo: nat, h: History)
    requires h.Valid()
    ensures Covers([], lo, lo, h)
  {
  }

  lemma {:induction false} CoversBounds(chunks: seq<Chunk>, lo: nat, hi: nat, h: History)
    requires h.Valid() && Covers(chunks, lo, hi, h)
    ensures if chunks == [] then lo == hi else lo < hi <= |h.bytes|
  {
    if chunks != [] {
      CoversBounds(chunks[1..], lo + |chunks[0].bytes|, hi, h);
    }
  }

  /** What a run of chunks holds, as one slice of the history. */
  lemma {:induction false} CoversFlatten(chunks: seq<Chunk>, lo: nat, hi: nat, h: History)
    requires h.Valid() && Covers(chunks, lo, hi, h)
    requires hi <= |h.bytes|
    ensures lo <= hi && Flatten(chunks) == h.bytes[lo..hi]
  {
    CoversBounds(chunks, lo, hi, h);
    if chunks != [] {
      var end := lo + |chunks[0].bytes|;
      CoversFlatten(chunks[1..], end, hi, h);
      assert h.bytes[lo..hi] == h.bytes[lo..end] + h.bytes[end..hi];
    }
  }

  lemma {:induction false} CoversJoin(left: seq<Chunk>, right: seq<Chunk>, lo: nat, mid: nat, hi: nat, h: History)
    requires h.Valid() && Covers(left, lo, mid, h) && Covers(right, mid, hi, h)
    ensures Covers(left + right, lo, hi, h)
    decreases |left|
  {
    hide History.Valid;
    CoversBounds(right, mid, hi, h);
    if left == [] {
      assert left + right == right;
    } else {
      var end := lo + |left[0].bytes|;
      CoversJoin(left[1..], right, end, mid, hi, h);
      assert (left + right)[1..] == left[1..] + right;
      if right == [] { CoversBounds(left, lo, mid, h); }
    }
  }

  /** Later traffic does not disturb what earlier chunks hold. */
  lemma {:induction false} CoversExtended(chunks: seq<Chunk>, lo: nat, hi: nat, h: History, later: History)
    requires h.Valid() && Covers(chunks, lo, hi, h) && Extends(h, later)
    ensures Covers(chunks, lo, hi, later)
    decreases |chunks|
  {
    if chunks != [] {
      var end := lo + |chunks[0].bytes|;
      CoversExtended(chunks[1..], end, hi, h, later);
      assert later.bytes[lo..end] == h.bytes[lo..end];
    }
  }

  lemma AppendExtends(h: History, input: Bytes)
    requires h.Valid()
    ensures Extends(h, h.Append(input))
  {
  }

  lemma CoversNewest(h: History, input: Bytes, kept: nat)
    requires h.Valid() && 0 < kept <= |input|
    ensures h.Append(input).Valid()
    ensures
      var length := |h.bytes| + |input|;
      Covers([Chunk(length - kept, h.generation, input[|input| - kept..])], length - kept, length, h.Append(input))
  {
    var length := |h.bytes| + |input|;
    assert h.Append(input).bytes[length - kept..length] == input[|input| - kept..];
  }

  function Drained(front: Chunk, excess: nat): Chunk
    requires excess <= |front.bytes|
  {
    Chunk(front.cursor + excess, front.generation, front.bytes[excess..])
  }

  lemma CoversAfterDrain(chunks: seq<Chunk>, lo: nat, hi: nat, h: History, excess: nat)
    requires h.Valid() && Covers(chunks, lo, hi, h)
    requires chunks != [] && excess < |chunks[0].bytes|
    ensures Covers([Drained(chunks[0], excess)] + chunks[1..], lo + excess, hi, h)
  {
    var end := lo + |chunks[0].bytes|;
    assert h.bytes[lo + excess..end] == h.bytes[lo..end][excess..];
    assert ([Drained(chunks[0], excess)] + chunks[1..])[1..] == chunks[1..];
  }

  /** A ring that retains exactly the newest bytes of its history. */
  ghost predicate Retains(capacity: nat, bytes: nat, chunks: seq<Chunk>, h: History) {
    && h.Valid()
    && bytes == Min(capacity, |h.bytes|)
    && Covers(chunks, h.Oldest(capacity), |h.bytes|, h)
  }

  /**
   A ring while an append is under way: the newest chunk is in the queue, after the older ones
   that are still to be evicted. An input beyond the capacity leaves a gap of cursors, from mid
   to the newest chunk, so this is not what `Retains` says.
   */
  ghost predicate Overfull(capacity: nat, bytes: nat, older: seq<Chunk>, newest: Chunk, mid: nat, h: History) {
    && h.Valid()
    && 0 < |newest.bytes| <= capacity
    && mid <= newest.cursor == |h.bytes| - |newest.bytes|
    && (mid == newest.cursor || |newest.bytes| == capacity)
    && Min(capacity, |h.bytes|) <= bytes <= mid + |newest.bytes|
    && |newest.bytes| <= bytes
    && Covers(older, mid + |newest.bytes| - bytes, mid, h)
    && Covers([newest], newest.cursor, |h.bytes|, h)
  }

  lemma PushOverfills(capacity: nat, bytes: nat, chunks: seq<Chunk>, h: History, input: Bytes, kept: nat)
    requires 0 < capacity && Retains(capacity, bytes, chunks, h)
    requires 0 < kept == Min(|input|, capacity)
    ensures
      var newest := Chunk(|h.bytes| + |input| - kept, h.generation, input[|input| - kept..]);
      Overfull(capacity, bytes + kept, chunks, newest, |h.bytes|, h.Append(input))
  {
    hide Covers;
    CoversNewest(h, input, kept);
    AppendExtends(h, input);
    CoversExtended(chunks, h.Oldest(capacity), |h.bytes|, h, h.Append(input));
  }

  lemma OverfullHasFront(capacity: nat, bytes: nat, older: seq<Chunk>, newest: Chunk, mid: nat, h: History)
    requires Overfull(capacity, bytes, older, newest, mid, h) && capacity < bytes
    ensures older != [] && 0 < |older[0].bytes| <= bytes - |newest.bytes|
  {
    CoversBounds(older[1..], mid + |newest.bytes| - bytes + |older[0].bytes|, mid, h);
  }

  lemma DrainKeepsOverfull(capacity: nat, bytes: nat, older: seq<Chunk>, newest: Chunk, mid: nat, h: History)
    requires Overfull(capacity, bytes, older, newest, mid, h) && capacity < bytes
    requires older != [] && bytes - capacity < |older[0].bytes|
    ensures Overfull(capacity, capacity, [Drained(older[0], bytes - capacity)] + older[1..], newest, mid, h)
  {
    CoversAfterDrain(older, mid + |newest.bytes| - bytes, mid, h, bytes - capacity);
  }

  lemma PopKeepsOverfull(capacity: nat, bytes: nat, older: seq<Chunk>, newest: Chunk, mid: nat, h: History)
    requires Overfull(capacity, bytes, older, newest, mid, h) && capacity < bytes
    requires older != [] && |older[0].bytes| <= bytes - capacity
    ensures Overfull(capacity, bytes - |older[0].bytes|, older[1..], newest, mid, h)
  {
    OverfullHasFront(capacity, bytes, older, newest, mid, h);
  }

  lemma EvictionRetains(capacity: nat, bytes: nat, older: seq<Chunk>, newest: Chunk, mid: nat, h: History)
    requires Overfull(capacity, bytes, older, newest, mid, h) && bytes <= capacity
    ensures Retains(capacity, bytes, older + [newest], h)
  {
    hide Covers, History.Valid;
    var lo := mid + |newest.bytes| - bytes;
    CoversBounds(older, lo, mid, h);
    if mid < newest.cursor {
      assert older + [newest] == [newest];
    } else {
      CoversJoin(older, [newest], lo, mid, |h.bytes|, h);
    }
  }

  /** What `SerialRing.SnapshotFrom` answers: the oldest maxBytes retained bytes at or after cursor. */
  ghost predicate IsSnapshotFrom(h: History, capacity: nat, cursor: nat, maxBytes: nat, s: Snapshot)
    requires h.Valid()
  {
    var start := Max(cursor, h.Oldest(capacity));
    && s.nextCursor == Max(start, Min(start + maxBytes, |h.bytes|))
    && Covers(s.chunks, start, s.nextCursor, h)
    && (s.truncated <==> cursor < h.Oldest(capacity) || s.nextCursor < |h.bytes|)
  }

  /** The retained positions of generation g run from here... */
  ghost function GenerationLow(h: History, capacity: nat, g: nat): nat {
    Max(h.Oldest(capacity), GenerationStart(h.tags, g))
  }

  /** ...up to here. */
  ghost function GenerationHigh(h: History, capacity: nat, g: nat): nat {
    Max(GenerationLow(h, capacity, g), GenerationStart(h.tags, g + 1))
  }

  /** Where the newest maxBytes retained bytes of generation g begin. */
  ghost function WindowStart(h: History, capacity: nat, g: nat, maxBytes: nat): nat {
    Max(GenerationLow(h, capacity, g), GenerationHigh(h, capacity, g) - maxBytes)
  }

  /** What `SerialRing.SnapshotGeneration` answers: the newest maxBytes retained bytes of generation g. */
  ghost predicate IsSnapshotOfGeneration(h: History, capacity: nat, g: nat, maxBytes: nat, s: Snapshot)
    requires h.Valid()
  {
    var low, high := GenerationLow(h, capacity, g), GenerationHigh(h, capacity, g);
    var start := WindowStart(h, capacity, g, maxBytes);
    && Covers(s.chunks, start, high, h)
    && s.nextCursor == (if start < high then high else |h.bytes|)
    && (s.truncated <==> high - low > maxBytes)
  }

  /** One step of walking a queue: the chunk at i, and what follows it. */
  lemma CoversWalk(chunks: seq<Chunk>, i: nat, lo: nat, hi: nat, h: History)
    requires h.Valid() && i < |chunks| && Covers(chunks[i..], lo, hi, h)
    ensures
      var end := lo + |chunks[i].bytes|;
      && chunks[i].cursor == lo
      && lo < end <= hi <= |h.bytes|
      && Covers([chunks[i]], lo, end, h)
      && Covers(chunks[i + 1..], end, hi, h)
  {
    assert chunks[i..][1..] == chunks[i + 1..];
  }

  /** A part of a chunk goes on the end of what has been copied out so far. */
  lemma CoversPush(out: seq<Chunk>, lo: nat, mid: nat, chunk: Chunk, from: nat, to: nat, h: History)
    requires h.Valid() && Covers(out, lo, mid, h)
    requires from < to <= |chunk.bytes| && chunk.cursor + from == mid
    requires Covers([chunk], chunk.cursor, chunk.cursor + |chunk.bytes|, h)
    ensures Covers(out + [Chunk(mid, chunk.generation, chunk.bytes[from..to])], lo, chunk.cursor + to, h)
  {
    hide History.Valid;
    var part := Chunk(mid, chunk.generation, chunk.bytes[from..to]);
    SliceOfSlice(h.bytes, chunk.cursor, chunk.cursor + |chunk.bytes|, from, to);
    CoversJoin(out, [part], lo, mid, chunk.cursor + to, h);
  }

  /** Generations divide the history, so every chunk lies on one side of each boundary. */
  lemma ChunkGeneration(chunk: Chunk, lo: nat, h: History, g: nat)
    requires h.Valid() && Covers([chunk], lo, lo + |chunk.bytes|, h)
    ensures
      var end := lo + |chunk.bytes|;
      && (chunk.generation < g ==> end <= GenerationStart(h.tags, g))
      && (chunk.generation == g ==> GenerationStart(h.tags, g) <= lo && end <= GenerationStart(h.tags, g + 1))
      && (chunk.generation > g ==> GenerationStart(h.tags, g) <= lo && GenerationStart(h.tags, g + 1) <= lo)
  {
    assert h.tags[lo] == chunk.generation == h.tags[lo + |chunk.bytes| - 1];
    GenerationStartSplits(h.tags, g);
    GenerationStartSplits(h.tags, g + 1);
  }

  /** A cursor snapshot reports where it stopped from the number of bytes it copied. */
  lemma CopiedFrom(h: History, capacity: nat, cursor: nat, maxBytes: nat, out: seq<Chunk>, reached: nat)
    requires h.Valid()
    requires
      var start := Max(cursor, h.Oldest(capacity));
      && reached == Max(start, Min(start + maxBytes, |h.bytes|))
      && Covers(out, start, reached, h)
    ensures
      var start := Max(cursor, h.Oldest(capacity));
      var next := start + |Flatten(out)|;
      IsSnapshotFrom(h, capacity, cursor, maxBytes,
                     Snapshot(out, next, cursor < h.Oldest(capacity) || next < |h.bytes|))
  {
    hide Covers;
    var start := Max(cursor, h.Oldest(capacity));
    CoversBounds(out, start, reached, h);
    if out != [] { CoversFlatten(out, start, reached, h); }
  }

  /** So does a generation snapshot, from its first chunk, or from the ring's own cursor if it has none. */
  lemma CopiedGeneration(h: History, capacity: nat, g: nat, maxBytes: nat, out: seq<Chunk>)
    requires h.Valid()
    requires Covers(out, WindowStart(h, capacity, g, maxBytes), GenerationHigh(h, capacity, g), h)
    ensures
      var first := if out == [] then |h.bytes| else out[0].cursor;
      var available := GenerationHigh(h, capacity, g) - GenerationLow(h, capacity, g);
      IsSnapshotOfGeneration(h, capacity, g, maxBytes,
                             Snapshot(out, first + |Flatten(out)|, available > maxBytes))
  {
    hide Covers, GenerationLow, GenerationHigh;
    var start, high := WindowStart(h, capacity, g, maxBytes), GenerationHigh(h, capacity, g);
    CoversBounds(out, start, high, h);
    if out != [] {
      assert out[0..] == out;
      CoversWalk(out, 0, start, high, h);
      CoversFlatten(out, start, high, h);
    }
  }

  /** How many bytes of generation g the ring holds below position pos. */
  ghost function CountedUpTo(h: History, capacity: nat, g: nat, pos: nat): nat {
    Max(GenerationLow(h, capacity, g), Min(pos, GenerationHigh(h, capacity, g))) - GenerationLow(h, capacity, g)
  }

  /** How far the window of generation g has been copied when the queue has been walked up to pos. */
  ghost function CopiedUpTo(h: History, capacity: nat, g: nat, maxBytes: nat, pos: nat): nat {
    Max(WindowStart(h, capacity, g, maxBytes), Min(pos, GenerationHigh(h, capacity, g)))
  }

  lemma NothingCounted(h: History, capacity: nat, g: nat, maxBytes: nat)
    ensures CountedUpTo(h, capacity, g, h.Oldest(capacity)) == 0
    ensures CopiedUpTo(h, capacity, g, maxBytes, h.Oldest(capacity)) == WindowStart(h, capacity, g, maxBytes)
  {
    hide GenerationStart;
  }

  lemma EverythingCounted(h: History, capacity: nat, g: nat, maxBytes: nat)
    requires h.Valid()
    ensures CountedUpTo(h, capacity, g, |h.bytes|) == GenerationHigh(h, capacity, g) - GenerationLow(h, capacity, g)
    ensures CopiedUpTo(h, capacity, g, maxBytes, |h.bytes|) == GenerationHigh(h, capacity, g)
  {
  }

  /** The chunk at pos, as a generation snapshot counts it. */
  lemma CountChunk(h: History, capacity: nat, g: nat, chunk: Chunk, pos: nat)
    requires h.Valid() && h.Oldest(capacity) <= pos && Covers([chunk], pos, pos + |chunk.bytes|, h)
    ensures CountedUpTo(h, capacity, g, pos + |chunk.bytes|) ==
            CountedUpTo(h, capacity, g, pos) + (if chunk.generation == g then |chunk.bytes| else 0)
    ensures chunk.generation == g ==>
              GenerationLow(h, capacity, g) <= pos && pos + |chunk.bytes| <= GenerationHigh(h, capacity, g)
    ensures chunk.generation != g ==>
              pos + |chunk.bytes| <= GenerationLow(h, capacity, g) || GenerationHigh(h, capacity, g) <= pos
  {
    ChunkGeneration(chunk, pos, h, g);
    hide Covers, GenerationStart;
  }

  /** Where a chunk of generation g at pos is copied from, if so many of the generation's bytes are to be skipped. */
  ghost function CopiedFromByte(h: History, capacity: nat, g: nat, maxBytes: nat, pos: nat, length: nat): (start: nat)
    ensures start <= length
  {
    var skip := Max(0, GenerationHigh(h, capacity, g) - GenerationLow(h, capacity, g) - maxBytes);
    Min(Max(0, skip - CountedUpTo(h, capacity, g, pos)), length)
  }

  /** That part of the chunk belongs to the window. */
  lemma CopyStart(h: History, capacity: nat, g: nat, maxBytes: nat, pos: nat, length: nat)
    requires GenerationLow(h, capacity, g) <= pos && pos + length <= GenerationHigh(h, capacity, g)
    ensures
      var start := CopiedFromByte(h, capacity, g, maxBytes, pos, length);
      if start < length
      then pos + start == CopiedUpTo(h, capacity, g, maxBytes, pos) && pos + length == CopiedUpTo(h, capacity, g, maxBytes, pos + length)
      else CopiedUpTo(h, capacity, g, maxBytes, pos) == CopiedUpTo(h, capacity, g, maxBytes, pos + length)
  {
    hide GenerationLow, GenerationHigh;
  }

  lemma OthersNotCopied(h: History, capacity: nat, g: nat, maxBytes: nat, pos: nat, end: nat)
    requires pos <= end && (end <= GenerationLow(h, capacity, g) || GenerationHigh(h, capacity, g) <= pos)
    ensures CopiedUpTo(h, capacity, g, maxBytes, pos) == CopiedUpTo(h, capacity, g, maxBytes, end)
  {
    hide GenerationLow, GenerationHigh;
  }

  /** The chunk at pos, as a generation snapshot that is to skip so many bytes copies it. */
  lemma CopyChunk(h: History, capacity: nat, g: nat, maxBytes: nat, chunk: Chunk, pos: nat, out: seq<Chunk>)
    requires h.Valid() && h.Oldest(capacity) <= pos && chunk.cursor == pos && Covers([chunk], pos, pos + |chunk.bytes|, h)
    requires
      Covers(out, WindowStart(h, capacity, g, maxBytes), CopiedUpTo(h, capacity, g, maxBytes, pos), h)
    ensures
      var start := CopiedFromByte(h, capacity, g, maxBytes, pos, |chunk.bytes|);
      Covers(if chunk.generation == g && start < |chunk.bytes|
             then out + [Chunk(pos + start, g, chunk.bytes[start..])] else out,
             WindowStart(h, capacity, g, maxBytes), CopiedUpTo(h, capacity, g, maxBytes, pos + |chunk.bytes|), h)
  {
    hide *;
    CountChunk(h, capacity, g, chunk, pos);
    if chunk.generation == g {
      CopyStart(h, capacity, g, maxBytes, pos, |chunk.bytes|);
      var start := CopiedFromByte(h, capacity, g, maxBytes, pos, |chunk.bytes|);
      if start < |chunk.bytes| {
        CoversPush(out, WindowStart(h, capacity, g, maxBytes), pos + start, chunk, start, |chunk.bytes|, h);
        assert chunk.bytes[start..] == chunk.bytes[start..|chunk.bytes|];
      }
    } else {
      OthersNotCopied(h, capacity, g, maxBytes, pos, pos + |chunk.bytes|);
    }
  }

  class SerialRing {
    const capacity: nat
    var bytes: nat
    var nextCursor: nat
    var generation: nat
    var chunks: seq<Chunk>
    ghost var history: History

    ghost predicate Valid()
      reads this
    {
      && 0 < capacity
      && generation == history.generation
      && nextCursor == |history.bytes|
      && Retains(capacity, bytes, chunks, history)
    }

    constructor (capacity: nat)
      requires 0 < capacity
      ensures Valid()
      ensures this.capacity == capacity && history == History([], [], 0)
    {
      this.capacity := capacity;
      bytes, nextCursor, generation, chunks := 0, 0, 0, [];
      history := History([], [], 0);
    }

    method MarkGeneration() returns (marked: nat)
      requires Valid()
      modifies this
      ensures Valid()
      ensures history == old(history).Mark() && marked == history.generation
      ensures Extends(old(history), history)
    {
      generation := generation + 1;
      ghost var before := history;
      history := history.Mark();
      CoversExtended(chunks, history.Oldest(capacity), |history.bytes|, before, history);
      marked := generation;
    }

    method Append(input: Bytes) returns (original: nat)
      requires Valid()
      modifies this
      ensures Valid()
      ensures history == old(history).Append(input) && original == |old(history).bytes|
      ensures Extends(old(history), history)
    {
      hide Covers;
      original := nextCursor;
      nextCursor := nextCursor + |input|;
      AppendExtends(history, input);
      if |input| == 0 {
        assert history.Append(input) == history;
        return;
      }
      var kept := if |input| > capacity then input[|input| - capacity..] else input;
      var cursor := nextCursor - |kept|;
      var newest := Chunk(cursor, generation, kept);
      ghost var older := chunks;
      assert newest == Chunk(|history.bytes| + |input| - |kept|, history.generation, input[|input| - |kept|..]);
      PushOverfills(capacity, bytes, chunks, history, input, |kept|);
      chunks := chunks + [newest];
      bytes := bytes + |kept|;
      history := history.Append(input);
      EvictOldest(older, newest, original);
    }

    method EvictOldest(ghost older: seq<Chunk>, ghost newest: Chunk, ghost mid: nat)
      requires Overfull(capacity, bytes, older, newest, mid, history)
      requires chunks == older + [newest]
      modifies `bytes, `chunks
      ensures Retains(capacity, bytes, chunks, history)
    {
      hide Covers;
      ghost var rest := older;
      while bytes > capacity
        invariant Overfull(capacity, bytes, rest, newest, mid, history)
        invariant chunks == rest + [newest]
      {
        OverfullHasFront(capacity, bytes, rest, newest, mid, history);
        var excess := bytes - capacity;
        var front := chunks[0];
        assert front == rest[0] && chunks[1..] == rest[1..] + [newest];
        if excess < |front.bytes| {
          DrainKeepsOverfull(capacity, bytes, rest, newest, mid, history);
          chunks := [Drained(front, excess)] + chunks[1..];
          bytes := bytes - excess;
          rest := [Drained(front, excess)] + rest[1..];
          assert bytes == capacity;
        } else {
          PopKeepsOverfull(capacity, bytes, rest, newest, mid, history);
          bytes := bytes - |front.bytes|;
          chunks := chunks[1..];
          rest := rest[1..];
        }
      }
      EvictionRetains(capacity, bytes, rest, newest, mid, history);
    }

    /** The cursor of the oldest retained byte, or of the next byte when none is retained. */
    method OldestCursor() returns (oldest: nat)
      requires Valid()
      ensures oldest == history.Oldest(capacity)
    {
      oldest := if chunks == [] then nextCursor else chunks[0].cursor;
    }

    method SnapshotFrom(cursor: nat, maxBytes: nat) returns (s: Snapshot)
      requires Valid()
      ensures IsSnapshotFrom(history, capacity, cursor, maxBytes, s)
    {
      hide Covers, Flatten, IsSnapshotFrom, History.Valid;
      var oldest := OldestCursor();
      assert chunks[0..] == chunks;
      var effectiveStart := Max(cursor, oldest);
      var remaining := maxBytes;
      var out: seq<Chunk> := [];
      ghost var pos: nat := oldest;
      ghost var reached: nat := effectiveStart;
      CoversNothing(effectiveStart, history);
      for i := 0 to |chunks|
        invariant Covers(chunks[i..], pos, |history.bytes|, history)
        invariant Covers(out, effectiveStart, reached, history)
        invariant reached == Max(effectiveStart, Min(pos, effectiveStart + maxBytes))
        invariant remaining == effectiveStart + maxBytes - reached
      {
        var chunk := chunks[i];
        CoversWalk(chunks, i, pos, |history.bytes|, history);
        var start := Min(Max(0, effectiveStart - chunk.cursor), |chunk.bytes|);
        pos := pos + |chunk.bytes|;
        if start == |chunk.bytes| || remaining == 0 {
          continue;
        }
        var len := Min(|chunk.bytes| - start, remaining);
        CoversPush(out, effectiveStart, reached, chunk, start, start + len, history);
        out := out + [Chunk(chunk.cursor + start, chunk.generation, chunk.bytes[start..start + len])];
        remaining := remaining - len;
        reached := reached + len;
      }
      CoversBounds(chunks[|chunks|..], pos, |history.bytes|, history);
      CopiedFrom(history, capacity, cursor, maxBytes, out, reached);
      var returned := |Flatten(out)|;
      s := Snapshot(out, effectiveStart + returned, cursor < oldest || effectiveStart + returned < nextCursor);
    }

    /** How many bytes of one generation the ring still holds. */
    method RetainedBytes(wanted: nat) returns (available: nat)
      requires Valid()
      ensures available == GenerationHigh(history, capacity, wanted) - GenerationLow(history, capacity, wanted)
    {
      hide Covers, GenerationLow, GenerationHigh;
      ghost var pos: nat := history.Oldest(capacity);
      available := 0;
      assert chunks[0..] == chunks;
      NothingCounted(history, capacity, wanted, 0);
      for i := 0 to |chunks|
        invariant Covers(chunks[i..], pos, |history.bytes|, history)
        invariant history.Oldest(capacity) <= pos
        invariant available == CountedUpTo(history, capacity, wanted, pos)
      {
        CoversWalk(chunks, i, pos, |history.bytes|, history);
        CountChunk(history, capacity, wanted, chunks[i], pos);
        if chunks[i].generation == wanted {
          available := available + |chunks[i].bytes|;
        }
        pos := pos + |chunks[i].bytes|;
      }
      CoversBounds(chunks[|chunks|..], pos, |history.bytes|, history);
      EverythingCounted(history, capacity, wanted, 0);
    }

    method SnapshotGeneration(wanted: nat, maxBytes: nat) returns (s: Snapshot)
      requires Valid()
      ensures IsSnapshotOfGeneration(history, capacity, wanted, maxBytes, s)
    {
      hide Covers, Flatten, GenerationLow, GenerationHigh, WindowStart, CountedUpTo, CopiedUpTo, IsSnapshotOfGeneration;
      var available := RetainedBytes(wanted);
      var skip := Max(0, available - maxBytes);
      var seen := 0;
      var out: seq<Chunk> := [];
      ghost var first := WindowStart(history, capacity, wanted, maxBytes);
      ghost var pos: nat := history.Oldest(capacity);
      assert chunks[0..] == chunks;
      CoversNothing(first, history);
      NothingCounted(history, capacity, wanted, maxBytes);
      for i := 0 to |chunks|
        invariant Covers(chunks[i..], pos, |history.bytes|, history)
        invariant history.Oldest(capacity) <= pos
        invariant seen == CountedUpTo(history, capacity, wanted, pos)
        invariant Covers(out, first, CopiedUpTo(history, capacity, wanted, maxBytes, pos), history)
      {
        var chunk := chunks[i];
        CoversWalk(chunks, i, pos, |history.bytes|, history);
        CountChunk(history, capacity, wanted, chunk, pos);
        CopyChunk(history, capacity, wanted, maxBytes, chunk, pos, out);
        if chunk.generation == wanted {
          var start := Min(Max(0, skip - seen), |chunk.bytes|);
          seen := seen + |chunk.bytes|;
          if start < |chunk.bytes| {
            out := out + [Chunk(chunk.cursor + start, wanted, chunk.bytes[start..])];
          }
        }
        pos := pos + |chunk.bytes|;
      }
      CoversBounds(chunks[|chunks|..], pos, |history.bytes|, history);
      EverythingCounted(history, capacity, wanted, maxBytes);
      CopiedGeneration(history, capacity, wanted, maxBytes, out);
      var startCursor := if out == [] then nextCursor else out[0].cursor;
      var returned := |Flatten(out)|;
      s := Snapshot(out, startCursor + returned, available > maxBytes);
    }
  }
}
