/** Vocabulary shared by the whole model: bytes, errors, results and search in byte strings. */
module Basics {

  /** One byte, written as the character with that code so that ASCII text can be quoted. */
  type Byte = c: char | c as int < 256

  type Bytes = seq<Byte>

  datatype Option<+T> = None | Some(value: T) {
    function Or(default: T): T {
      if Some? then value else default
    }
  }

  datatype ErrorCode =
    | BoardBusy
    | CommandDenied
    | CommandExitNonzero
    | CommandTimeout
    | ConfirmationRequired
    | InvalidConfiguration
    | OutputTruncated
    | PowerBackendFailed
    | PowerIdentityMismatch
    | PowerStateUnverified
    | SerialDisconnected
    | ShellNotSynchronized
    | StateTimeout

  datatype Error = Error(code: ErrorCode, phase: string)

  datatype Result<+T> = Ok(value: T) | Err(error: Error) {
    predicate IsFailure() { Err? }

    function PropagateFailure<U>(): Result<U>
      requires Err?
    {
      Err(error)
    }

    function Extract(): T
      requires Ok?
    {
      value
    }
  }

  datatype Unit = Unit

  function Min(a: int, b: int): int { if a < b then a else b }

  function Max(a: int, b: int): int { if a < b then b else a }

  /** The part of s between two positions, either of which may lie beyond its end. */
  function Slice(s: Bytes, lo: nat, hi: nat): Bytes {
    if lo <= hi then s[Min(lo, |s|)..Min(hi, |s|)] else []
  }

  predicate OccursAt(text: Bytes, pattern: Bytes, at: nat) {
    at + |pattern| <= |text| && text[at..at + |pattern|] == pattern
  }

  ghost predicate Contains(text: Bytes, pattern: Bytes) {
    exists at: nat :: OccursAt(text, pattern, at)
  }

  lemma SliceOfSlice<T>(s: seq<T>, lo: nat, hi: nat, from: nat, to: nat)
    requires lo <= hi <= |s| && from <= to <= hi - lo
    ensures s[lo..hi][from..to] == s[lo + from..lo + to]
  {
    var t := s[lo..hi];
    assert forall i :: from <= i < to ==> t[i] == s[lo + i];
  }

  /** The last position below limit at which pattern occurs. */
  function LastBefore(text: Bytes, pattern: Bytes, limit: nat): Option<nat> {
    if limit == 0 then None
    else if OccursAt(text, pattern, limit - 1) then Some(limit - 1)
    else LastBefore(text, pattern, limit - 1)
  }

  function RFind(text: Bytes, pattern: Bytes): Option<nat> {
    LastBefore(text, pattern, |text| + 1)
  }

  predicate Includes(text: Bytes, pattern: Bytes) {
    RFind(text, pattern).Some?
  }

  lemma {:induction false} LastBeforeMeaning(text: Bytes, pattern: Bytes, limit: nat)
    ensures
      match LastBefore(text, pattern, limit)
      case Some(at) => OccursAt(text, pattern, at) && at < limit && (forall i: nat :: at < i < limit ==> !OccursAt(text, pattern, i))
      case None => forall i: nat :: i < limit ==> !OccursAt(text, pattern, i)
  {
    if limit > 0 {
      LastBeforeMeaning(text, pattern, limit - 1);
    }
  }

  /** RFind gives the last occurrence, and fails only when there is none. */
  lemma RFindMeaning(text: Bytes, pattern: Bytes)
    ensures
      match RFind(text, pattern)
      case Some(at) => OccursAt(text, pattern, at) && (forall i: nat :: OccursAt(text, pattern, i) ==> i <= at)
      case None => !Contains(text, pattern)
  {
    LastBeforeMeaning(text, pattern, |text| + 1);
  }

  lemma OccursInTail(front: Bytes, rest: Bytes, word: Bytes, i: nat)
    ensures OccursAt(front + rest, word, |front| + i) <==> OccursAt(rest, word, i)
  {
    if i + |word| <= |rest| {
      assert (front + rest)[|front| + i..|front| + i + |word|] == rest[i..i + |word|];
    }
  }
}
