/** Board-state detection: which configured pattern occurs last in a piece of console text. */
module Detector {
  import opened Basics

  datatype BoardState =
    | PoweredOff
    | PoweringOn
    | BootRomOrFirmware
    | UbootCountdown
    | UbootPrompt
    | LinuxBooting
    | LinuxLogin
    | LinuxShell
    | ShutdownInProgress
    | ApplicationRunning
    | Unresponsive
    | Unknown

  datatype Patterns = Patterns(
    shutdown: Option<Bytes>,
    linuxShell: Bytes,
    linuxLogin: Bytes,
    linuxBoot: Bytes,
    ubootPrompt: Bytes,
    ubootCountdown: Bytes
  )

  /** The states that have a pattern, in the order in which the detector lists them. */
  const DETECTABLE := [ShutdownInProgress, LinuxShell, LinuxLogin, LinuxBooting, UbootPrompt, UbootCountdown]

  /** The pattern of the k-th detectable state; the empty pattern stands for none. */
  function Pattern(p: Patterns, k: nat): Bytes
    requires k < 6
  {
    if k == 0 then p.shutdown.Or([])
    else if k == 1 then p.linuxShell
    else if k == 2 then p.linuxLogin
    else if k == 3 then p.linuxBoot
    else if k == 4 then p.ubootPrompt
    else p.ubootCountdown
  }

  /** A match: the k-th detectable state, by an occurrence at offset. */
  datatype Match = Match(offset: nat, k: nat)

  /** The match with the greatest offset among the first n candidates; of equal offsets, the later candidate. */
  function LatestOf(p: Patterns, text: Bytes, n: nat): Option<Match>
    requires n <= 6
  {
    if n == 0 then None
    else
      var best := LatestOf(p, text, n - 1);
      var pattern := Pattern(p, n - 1);
      if pattern == [] then best
      else
        match RFind(text, pattern)
        case None => best
        case Some(offset) =>
          if best.Some? && best.value.offset > offset then best else Some(Match(offset, n - 1))
  }

  function Latest(p: Patterns, text: Bytes): Option<Match> {
    LatestOf(p, text, 6)
  }

  /** The verdict on a text, and the pattern that is the evidence for it. */
  datatype StateEvidence = StateEvidence(state: BoardState, evidence: Bytes)

  function Observe(p: Patterns, text: Bytes): StateEvidence {
    LatestMeaning(p, text);
    match Latest(p, text)
    case Some(m) => StateEvidence(DETECTABLE[m.k], Pattern(p, m.k))
    case None => StateEvidence(Unknown, [])
  }

  // ---- What the search finds ----

  /** The k-th pattern is configured and occurs at i. */
  ghost predicate Candidate(p: Patterns, text: Bytes, k: nat, i: nat) {
    k < 6 && Pattern(p, k) != [] && OccursAt(text, Pattern(p, k), i)
  }

  /** m occurs, and no other candidate among the first n does later, or as late but further down the list. */
  ghost predicate Wins(p: Patterns, text: Bytes, n: nat, m: Match) {
    && m.k < n
    && Candidate(p, text, m.k, m.offset)
    && (forall k: nat, i: nat :: k < n && Candidate(p, text, k, i) ==> i < m.offset || (i == m.offset && k <= m.k))
  }

  lemma {:induction false} LatestOfMeaning(p: Patterns, text: Bytes, n: nat)
    requires n <= 6
    ensures
      match LatestOf(p, text, n)
      case Some(m) => Wins(p, text, n, m)
      case None => forall k: nat, i: nat :: k < n ==> !Candidate(p, text, k, i)
  {
    if n > 0 {
      LatestOfMeaning(p, text, n - 1);
      RFindMeaning(text, Pattern(p, n - 1));
    }
  }

  /** The detector reports the winner if any configured pattern occurs at all. */
  lemma LatestMeaning(p: Patterns, text: Bytes)
    ensures
      match Latest(p, text)
      case Some(m) => Wins(p, text, 6, m)
      case None => forall k: nat, i: nat :: !Candidate(p, text, k, i)
  {
    LatestOfMeaning(p, text, 6);
  }

  /** There is only one winner. */
  lemma WinnerIsUnique(p: Patterns, text: Bytes, m: Match)
    requires Wins(p, text, 6, m)
    ensures Latest(p, text) == Some(m)
  {
    assert Candidate(p, text, m.k, m.offset);
    LatestMeaning(p, text);
  }

  /** An observed state is backed by an occurrence of its own pattern, later than all others. */
  lemma ObservedStateMeaning(p: Patterns, text: Bytes, k: nat)
    requires k < 6
    ensures Observe(p, text).state == DETECTABLE[k] <==> exists at: nat :: Wins(p, text, 6, Match(at, k))
    ensures Observe(p, text).state == DETECTABLE[k] ==> Observe(p, text).evidence == Pattern(p, k)
  {
    LatestMeaning(p, text);
    if Observe(p, text).state == DETECTABLE[k] {
      var m := Latest(p, text).value;
      assert m == Match(m.offset, k);
    }
    if at: nat :| Wins(p, text, 6, Match(at, k)) {
      WinnerIsUnique(p, text, Match(at, k));
    }
  }

  // ---- The same by the profile's own fields ----

  /**
   One pattern occurs at this place; those listed up to it start nowhere later, and those listed after
   it start nowhere as late. Empty patterns do not count.
   */
  ghost predicate Final(text: Bytes, own: Bytes, upTo: seq<Bytes>, after: seq<Bytes>, at: nat) {
    && own != []
    && OccursAt(text, own, at)
    && (forall f: Bytes, i: nat :: f in upTo && f != [] && OccursAt(text, f, i) ==> i <= at)
    && (forall f: Bytes, i: nat :: f in after && f != [] && OccursAt(text, f, i) ==> i < at)
  }

  ghost predicate Decisive(text: Bytes, own: Bytes, upTo: seq<Bytes>, after: seq<Bytes>) {
    exists at: nat :: Final(text, own, upTo, after, at)
  }

  lemma WinIsFinal(p: Patterns, text: Bytes, k: nat, upTo: seq<Bytes>, after: seq<Bytes>, at: nat)
    requires k < 6 && |upTo| == k + 1 && |after| == 5 - k
    requires forall j :: 0 <= j <= k ==> upTo[j] == Pattern(p, j)
    requires forall j :: 0 <= j < 5 - k ==> after[j] == Pattern(p, k + 1 + j)
    ensures Wins(p, text, 6, Match(at, k)) <==> Final(text, Pattern(p, k), upTo, after, at)
  {
    hide Pattern, OccursAt;
    if Wins(p, text, 6, Match(at, k)) {
      forall f: Bytes, i: nat | f in upTo && f != [] && OccursAt(text, f, i)
        ensures i <= at
      {
        var j :| 0 <= j <= k && upTo[j] == f;
        assert Candidate(p, text, j, i);
      }
      forall f: Bytes, i: nat | f in after && f != [] && OccursAt(text, f, i)
        ensures i < at
      {
        var j :| 0 <= j < 5 - k && after[j] == f;
        assert Candidate(p, text, k + 1 + j, i);
      }
    }
    if Final(text, Pattern(p, k), upTo, after, at) {
      forall j: nat, i: nat | j < 6 && Candidate(p, text, j, i)
        ensures i < at || (i == at && j <= k)
      {
        if j <= k { assert upTo[j] in upTo; } else { assert after[j - k - 1] in after; }
      }
    }
  }

  lemma StateIsDecisive(p: Patterns, text: Bytes, k: nat, upTo: seq<Bytes>, after: seq<Bytes>)
    requires k < 6 && |upTo| == k + 1 && |after| == 5 - k
    requires forall j :: 0 <= j <= k ==> upTo[j] == Pattern(p, j)
    requires forall j :: 0 <= j < 5 - k ==> after[j] == Pattern(p, k + 1 + j)
    ensures Observe(p, text).state == DETECTABLE[k] <==> Decisive(text, Pattern(p, k), upTo, after)
    ensures Observe(p, text).state == DETECTABLE[k] ==> Observe(p, text).evidence == Pattern(p, k)
  {
    ObservedStateMeaning(p, text, k);
    hide Observe, Pattern, Wins, Final;
    forall at: nat
      ensures Wins(p, text, 6, Match(at, k)) <==> Final(text, Pattern(p, k), upTo, after, at)
    {
      WinIsFinal(p, text, k, upTo, after, at);
    }
  }

  /**
   Which field of the profile decides each state, and how ties go: the pattern listed later wins when
   two start at the same place. The order is shutdown, shell, login, boot, prompt, countdown.
   */
  lemma StatesByField(p: Patterns, text: Bytes)
    ensures
      var shutdown := p.shutdown.Or([]);
      var seen := Observe(p, text);
      && (seen.state == ShutdownInProgress <==>
            Decisive(text, shutdown, [shutdown],
                     [p.linuxShell, p.linuxLogin, p.linuxBoot, p.ubootPrompt, p.ubootCountdown]))
      && (seen.state == LinuxShell <==>
            Decisive(text, p.linuxShell, [shutdown, p.linuxShell],
                     [p.linuxLogin, p.linuxBoot, p.ubootPrompt, p.ubootCountdown]))
      && (seen.state == LinuxLogin <==>
            Decisive(text, p.linuxLogin, [shutdown, p.linuxShell, p.linuxLogin],
                     [p.linuxBoot, p.ubootPrompt, p.ubootCountdown]))
      && (seen.state == LinuxBooting <==>
            Decisive(text, p.linuxBoot, [shutdown, p.linuxShell, p.linuxLogin, p.linuxBoot],
                     [p.ubootPrompt, p.ubootCountdown]))
      && (seen.state == UbootPrompt <==>
            Decisive(text, p.ubootPrompt, [shutdown, p.linuxShell, p.linuxLogin, p.linuxBoot, p.ubootPrompt],
                     [p.ubootCountdown]))
      && (seen.state == UbootCountdown <==>
            Decisive(text, p.ubootCountdown,
                     [shutdown, p.linuxShell, p.linuxLogin, p.linuxBoot, p.ubootPrompt, p.ubootCountdown], []))
  {
    hide Observe, Decisive;
    var shutdown := p.shutdown.Or([]);
    StateIsDecisive(p, text, 0, [shutdown], [p.linuxShell, p.linuxLogin, p.linuxBoot, p.ubootPrompt, p.ubootCountdown]);
    StateIsDecisive(p, text, 1, [shutdown, p.linuxShell], [p.linuxLogin, p.linuxBoot, p.ubootPrompt, p.ubootCountdown]);
    StateIsDecisive(p, text, 2, [shutdown, p.linuxShell, p.linuxLogin], [p.linuxBoot, p.ubootPrompt, p.ubootCountdown]);
    StateIsDecisive(p, text, 3, [shutdown, p.linuxShell, p.linuxLogin, p.linuxBoot], [p.ubootPrompt, p.ubootCountdown]);
    StateIsDecisive(p, text, 4, [shutdown, p.linuxShell, p.linuxLogin, p.linuxBoot, p.ubootPrompt], [p.ubootCountdown]);
    StateIsDecisive(
      p, text, 5, [shutdown, p.linuxShell, p.linuxLogin, p.linuxBoot, p.ubootPrompt, p.ubootCountdown], []);
  }

  /** What is quoted as evidence; and the state is unknown exactly when no configured pattern occurs. */
  lemma EvidenceByField(p: Patterns, text: Bytes)
    ensures
      match Observe(p, text).state
      case ShutdownInProgress => p.shutdown == Some(Observe(p, text).evidence)
      case LinuxShell => Observe(p, text).evidence == p.linuxShell
      case LinuxLogin => Observe(p, text).evidence == p.linuxLogin
      case LinuxBooting => Observe(p, text).evidence == p.linuxBoot
      case UbootPrompt => Observe(p, text).evidence == p.ubootPrompt
      case UbootCountdown => Observe(p, text).evidence == p.ubootCountdown
      case Unknown => Observe(p, text).evidence == []
      case _ => false
    ensures
      Observe(p, text).state == Unknown <==>
      forall f: Bytes ::
        f in [p.shutdown.Or([]), p.linuxShell, p.linuxLogin, p.linuxBoot, p.ubootPrompt, p.ubootCountdown] && f != []
        ==> !Contains(text, f)
  {
    LatestMeaning(p, text);
    var fields := [p.shutdown.Or([]), p.linuxShell, p.linuxLogin, p.linuxBoot, p.ubootPrompt, p.ubootCountdown];
    assert forall k :: 0 <= k < 6 ==> fields[k] == Pattern(p, k);
    hide Pattern, OccursAt;
    if Latest(p, text).Some? {
      var m := Latest(p, text).value;
      assert fields[m.k] in fields && Contains(text, fields[m.k]);
    } else {
      forall f: Bytes | f in fields && f != []
        ensures !Contains(text, f)
      {
        var k: nat :| k < 6 && fields[k] == f;
        assert forall i: nat :: OccursAt(text, f, i) ==> Candidate(p, text, k, i);
      }
    }
  }

  // ---- Windows ----

  lemma CandidateInSuffix(p: Patterns, text: Bytes, n: nat, k: nat, i: nat)
    requires n <= |text|
    ensures Candidate(p, text[n..], k, i) <==> Candidate(p, text, k, n + i)
  {
    if k < 6 && n + i + |Pattern(p, k)| <= |text| {
      assert text[n..][i..i + |Pattern(p, k)|] == text[n + i..n + i + |Pattern(p, k)|];
    }
  }

  /** A suffix of the text shows the verdict on the whole text, at the same place, or no verdict. */
  lemma SuffixAgrees(p: Patterns, text: Bytes, n: nat)
    requires n <= |text|
    ensures
      match Latest(p, text[n..])
      case Some(m) => Latest(p, text) == Some(Match(n + m.offset, m.k))
      case None => true
  {
    hide Candidate, Latest, LatestOf;
    LatestMeaning(p, text[n..]);
    if Latest(p, text[n..]).Some? {
      var m := Latest(p, text[n..]).value;
      CandidateInSuffix(p, text, n, m.k, m.offset);
      forall k: nat, i: nat | k < 6 && Candidate(p, text, k, i)
        ensures i < n + m.offset || (i == n + m.offset && k <= m.k)
      {
        if i >= n {
          CandidateInSuffix(p, text, n, k, i - n);
        }
      }
      WinnerIsUnique(p, text, Match(n + m.offset, m.k));
    }
  }

  lemma CandidateInPrefix(p: Patterns, text: Bytes, extra: Bytes, k: nat, i: nat)
    ensures Candidate(p, text, k, i) <==> Candidate(p, text + extra, k, i) && i + |Pattern(p, k)| <= |text|
  {
    if k < 6 && i + |Pattern(p, k)| <= |text| {
      assert (text + extra)[i..i + |Pattern(p, k)|] == text[i..i + |Pattern(p, k)|];
    }
  }

  /** Bytes in which no occurrence ends do not change the verdict. */
  lemma QuietBytesChangeNothing(p: Patterns, text: Bytes, extra: Bytes)
    requires forall k: nat, i: nat :: Candidate(p, text + extra, k, i) ==> i + |Pattern(p, k)| <= |text|
    ensures Latest(p, text + extra) == Latest(p, text)
  {
    forall k: nat, i: nat
      ensures Candidate(p, text, k, i) <==> Candidate(p, text + extra, k, i)
    {
      CandidateInPrefix(p, text, extra, k, i);
    }
    LatestMeaning(p, text);
    LatestMeaning(p, text + extra);
    if Latest(p, text).Some? {
      WinnerIsUnique(p, text + extra, Latest(p, text).value);
    }
  }
}
