/** Every stream of bytes that a client of any kind can send, and what the server makes of it. */
module ConsoleStream {
  import opened Basics
  import opened Console

  /** One byte for the UART, or a NUL, a text and the end of its line. */
  datatype Token = Raw(b: Byte) | Message(text: Bytes, end: Byte)

  predicate IsToken(t: Token) {
    match t
    case Raw(b) => b != '\0'
    case Message(text, end) => '\n' !in text && '\r' !in text && (end == '\n' || end == '\r')
  }

  function TokenBytes(t: Token): Bytes {
    match t
    case Raw(b) => [b]
    case Message(text, end) => ['\0'] + text + [end]
  }

  function StreamOf(tokens: seq<Token>): Bytes {
    if tokens == [] then [] else TokenBytes(tokens[0]) + StreamOf(tokens[1..])
  }

  /** A message is a change of mode or a command by its trimmed text. */
  function MeaningOf(t: Token): Event {
    match t
    case Raw(b) => UartByte(b)
    case Message(text, _) =>
      if Trim(text) == "__rpictl_on" then ModeSet(true)
      else if Trim(text) == "__rpictl_off" then ModeSet(false)
      else Command(Trim(text))
  }

  function Meanings(tokens: seq<Token>): seq<Event> {
    if tokens == [] then [] else [MeaningOf(tokens[0])] + Meanings(tokens[1..])
  }

  /** The mode that a run of events leaves. */
  function ModeAfter(mode: bool, events: seq<Event>): bool
    decreases |events|
  {
    if events == [] then mode
    else ModeAfter(if events[0].ModeSet? then events[0].commands else mode, events[1..])
  }

  /** What is left of a stream when its last message has not ended. */
  predicate IsUnfinished(rest: Bytes) {
    rest == [] || (rest[0] == '\0' && '\n' !in rest[1..] && '\r' !in rest[1..])
  }

  /** Trimming takes away white space at both ends, all of it, and nothing else. */
  lemma TrimMeaning(text: Bytes) returns (before: Bytes, after: Bytes)
    ensures text == before + Trim(text) + after
    ensures forall i :: 0 <= i < |before| ==> IsWhitespace(before[i])
    ensures forall i :: 0 <= i < |after| ==> IsWhitespace(after[i])
    ensures Trim(text) != [] ==> !IsWhitespace(Trim(text)[0]) && !IsWhitespace(Trim(text)[|Trim(text)| - 1])
  {
    var start, end := TrimStart(text), Trim(text);
    before := StartTrimmed(text);
    after := EndTrimmed(start);
    hide TrimStart, TrimEnd, IsWhitespace;
    assert start == end + after;
    if end != [] {
      assert start[0] == end[0];
    }
    assert text == before + (end + after) == before + end + after;
  }

  lemma {:induction false} StartTrimmed(text: Bytes) returns (before: Bytes)
    ensures text == before + TrimStart(text)
    ensures forall i :: 0 <= i < |before| ==> IsWhitespace(before[i])
    ensures TrimStart(text) != [] ==> !IsWhitespace(TrimStart(text)[0])
  {
    if text != [] && IsWhitespace(text[0]) {
      var rest := StartTrimmed(text[1..]);
      before := [text[0]] + rest;
    } else {
      before := [];
    }
  }

  lemma {:induction false} EndTrimmed(text: Bytes) returns (after: Bytes)
    ensures text == TrimEnd(text) + after
    ensures forall i :: 0 <= i < |after| ==> IsWhitespace(after[i])
    ensures TrimEnd(text) != [] ==> !IsWhitespace(TrimEnd(text)[|TrimEnd(text)| - 1])
  {
    if text != [] && IsWhitespace(text[|text| - 1]) {
      var rest := EndTrimmed(text[..|text| - 1]);
      after := rest + [text[|text| - 1]];
    } else {
      after := [];
    }
  }

  ghost predicate IsGap(text: Bytes) {
    forall i :: 0 <= i < |text| ==> IsWhitespace(text[i])
  }

  /** Words with white space between them, and perhaps before and after them. */
  function Sentence(gaps: seq<Bytes>, words: seq<Bytes>): Bytes
    requires |gaps| == |words| + 1
  {
    if words == [] then gaps[0] else gaps[0] + words[0] + Sentence(gaps[1..], words[1..])
  }

  lemma {:induction false} GapIsSkipped(gap: Bytes, rest: Bytes)
    requires IsGap(gap)
    ensures SplitWhitespace(gap + rest) == SplitWhitespace(rest)
  {
    if gap == [] {
      assert gap + rest == rest;
    } else {
      assert (gap + rest)[1..] == gap[1..] + rest;
      GapIsSkipped(gap[1..], rest);
    }
  }

  /** A command line is taken apart into exactly its words, however they are spaced. */
  lemma {:induction false} SentenceSplits(gaps: seq<Bytes>, words: seq<Bytes>)
    requires |gaps| == |words| + 1
    requires forall i :: 0 <= i < |gaps| ==> IsGap(gaps[i])
    requires forall i :: 1 <= i < |words| ==> gaps[i] != []
    requires forall i :: 0 <= i < |words| ==> IsWord(words[i])
    ensures SplitWhitespace(Sentence(gaps, words)) == words
    decreases |words|
  {
    if words == [] {
      GapIsSkipped(gaps[0], []);
      assert gaps[0] + [] == gaps[0];
    } else {
      var rest := Sentence(gaps[1..], words[1..]);
      SentenceSplits(gaps[1..], words[1..]);
      assert rest != [] ==> IsWhitespace(rest[0]) by {
        assert IsGap(gaps[1]);
        if |words| > 1 { assert gaps[1] != [] && gaps[1] <= rest; }
      }
      WordThenRest(words[0], rest);
      GapIsSkipped(gaps[0], words[0] + rest);
      assert gaps[0] + words[0] + rest == gaps[0] + (words[0] + rest);
    }
  }

  lemma WordThenRest(word: Bytes, rest: Bytes)
    requires IsWord(word) && (rest == [] || IsWhitespace(rest[0]))
    ensures SplitWhitespace(word + rest) == [word] + SplitWhitespace(rest)
  {
    WordEndIs(word, rest);
    assert (word + rest)[..|word|] == word && (word + rest)[|word|..] == rest;
  }

  /** A message is opened by a NUL and stays open over its text. */
  lemma MessageOpened(text: Bytes, mode: bool)
    requires '\n' !in text && '\r' !in text
    ensures Parsed(Server(None, mode), ['\0'] + text) == ServerRun(Server(Some(text), mode), [])
  {
    var s := Server(None, mode);
    ParsedStep(s, ['\0'], 0);
    assert ['\0'][..1] == ['\0'] && ['\0'][..0] == [];
    ParsedNothing(s);
    hide Parsed;
    PendingLine([], text, mode);
    assert [] + text == text;
    ParsedJoin(s, ['\0'], text);
  }

  lemma TokenParsed(t: Token, mode: bool)
    requires IsToken(t)
    ensures Parsed(Server(None, mode), TokenBytes(t)) == ServerRun(Server(None, ModeAfter(mode, [MeaningOf(t)])), [MeaningOf(t)])
  {
    assert ModeAfter(mode, [MeaningOf(t)]) == if MeaningOf(t).ModeSet? then MeaningOf(t).commands else mode;
    hide Parsed, Trim;
    match t
    case Raw(b) => ByteParsed(b, mode);
    case Message(text, end) =>
      MessageOpened(text, mode);
      ParsedStep(Server(None, mode), TokenBytes(t), |text| + 1);
      assert TokenBytes(t)[..|text| + 1] == ['\0'] + text && TokenBytes(t)[..|text| + 2] == TokenBytes(t);
  }

  lemma {:induction false} ModeAfterJoin(mode: bool, first: Event, rest: seq<Event>)
    ensures ModeAfter(mode, [first] + rest) == ModeAfter(ModeAfter(mode, [first]), rest)
  {
    assert ([first] + rest)[1..] == rest && [first][1..] == [];
  }

  /** The server understands a stream of tokens, whoever sent it: their meanings in order, and the last mode set. */
  lemma {:induction false} TokensParsed(tokens: seq<Token>, mode: bool)
    requires forall t :: t in tokens ==> IsToken(t)
    ensures
      Parsed(Server(None, mode), StreamOf(tokens)) ==
      ServerRun(Server(None, ModeAfter(mode, Meanings(tokens))), Meanings(tokens))
  {
    if tokens == [] {
      ParsedNothing(Server(None, mode));
    } else {
      var first := MeaningOf(tokens[0]);
      TokenParsed(tokens[0], mode);
      ModeAfterJoin(mode, first, Meanings(tokens[1..]));
      TokensParsed(tokens[1..], ModeAfter(mode, [first]));
      hide Parsed, TokenBytes, MeaningOf, ModeAfter;
      ParsedJoin(Server(None, mode), TokenBytes(tokens[0]), StreamOf(tokens[1..]));
    }
  }

  /** An unfinished message means nothing yet. */
  lemma UnfinishedMeansNothing(rest: Bytes, mode: bool)
    requires IsUnfinished(rest)
    ensures Parsed(Server(None, mode), rest).events == []
  {
    if rest == [] {
      ParsedNothing(Server(None, mode));
    } else {
      MessageOpened(rest[1..], mode);
      assert rest == ['\0'] + rest[1..];
    }
  }

  function LineEnd(text: Bytes): (n: nat)
    ensures n <= |text| && '\n' !in text[..n] && '\r' !in text[..n]
    ensures n < |text| ==> text[n] == '\n' || text[n] == '\r'
  {
    if text == [] || text[0] == '\n' || text[0] == '\r' then 0
    else
      var n := 1 + LineEnd(text[1..]);
      assert text[..n] == [text[0]] + text[1..][..n - 1];
      n
  }

  lemma MessageComesFirst(stream: Bytes, n: nat)
    requires n + 1 < |stream| && stream[0] == '\0'
    ensures stream == (['\0'] + stream[1..][..n] + [stream[n + 1]]) + stream[n + 2..]
  {
    assert stream[1..][..n] == stream[1..n + 1];
  }

  lemma ByteComesFirst(stream: Bytes)
    requires stream != []
    ensures stream == [stream[0]] + stream[1..]
  {
  }

  /** Every stream is tokens and at most one unfinished message. */
  lemma {:induction false} StreamIsTokens(stream: Bytes) returns (tokens: seq<Token>, rest: Bytes)
    ensures forall t :: t in tokens ==> IsToken(t)
    ensures IsUnfinished(rest) && stream == StreamOf(tokens) + rest
    decreases |stream|
  {
    hide LineEnd;
    tokens, rest := [], stream;
    assert StreamOf([]) == [] && [] + stream == stream;
    hide StreamOf;
    if stream != [] {
      ByteComesFirst(stream);
      var n := LineEnd(stream[1..]);
      if stream[0] != '\0' {
        tokens, rest := StreamIsTokens(stream[1..]);
        PutFirst(Raw(stream[0]), tokens, rest);
        tokens := [Raw(stream[0])] + tokens;
      } else if n < |stream| - 1 {
        MessageComesFirst(stream, n);
        var message := Message(stream[1..][..n], stream[n + 1]);
        tokens, rest := StreamIsTokens(stream[n + 2..]);
        PutFirst(message, tokens, rest);
        tokens := [message] + tokens;
      } else {
        assert stream[1..][..n] == stream[1..];
      }
    }
  }

  lemma PutFirst(t: Token, tokens: seq<Token>, rest: Bytes)
    ensures StreamOf([t] + tokens) + rest == TokenBytes(t) + (StreamOf(tokens) + rest)
  {
    assert ([t] + tokens)[1..] == tokens;
  }

  /** So the server's events over any stream at all are the meanings of its tokens. */
  lemma StreamParsed(stream: Bytes, mode: bool) returns (tokens: seq<Token>, rest: Bytes)
    ensures forall t :: t in tokens ==> IsToken(t)
    ensures IsUnfinished(rest) && stream == StreamOf(tokens) + rest
    ensures Parsed(Server(None, mode), stream).events == Meanings(tokens)
  {
    tokens, rest := StreamIsTokens(stream);
    TokensParsed(tokens, mode);
    hide Parsed;
    var after := ModeAfter(mode, Meanings(tokens));
    UnfinishedMeansNothing(rest, after);
    ParsedJoin(Server(None, mode), StreamOf(tokens), rest);
  }
}
