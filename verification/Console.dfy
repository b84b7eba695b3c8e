/**
 The interactive console's input: the client turns keystrokes into UART bytes, mode changes and
 commands, and the server's byte parser takes them apart again.
 */
module Console {
  import opened Basics

  /** What a keystroke means, and what the server understands. */
  datatype Event = UartByte(b: Byte) | ModeSet(commands: bool) | Command(line: Bytes)

  // ---- Text ----

  /** White space among the characters that fit one byte. */
  predicate IsWhitespace(c: Byte) {
    9 <= c as int <= 13 || c == ' ' || c as int == 0x85 || c as int == 0xa0
  }

  function TrimStart(text: Bytes): Bytes {
    if text != [] && IsWhitespace(text[0]) then TrimStart(text[1..]) else text
  }

  function TrimEnd(text: Bytes): Bytes {
    if text != [] && IsWhitespace(text[|text| - 1]) then TrimEnd(text[..|text| - 1]) else text
  }

  function Trim(text: Bytes): Bytes {
    TrimEnd(TrimStart(text))
  }

  /** The first word of a text without leading white space. */
  function WordEnd(text: Bytes): (n: nat)
    ensures n <= |text|
  {
    if text == [] || IsWhitespace(text[0]) then 0 else 1 + WordEnd(text[1..])
  }

  function SplitWhitespace(text: Bytes): seq<Bytes>
    decreases |text|
  {
    if text == [] then []
    else if IsWhitespace(text[0]) then SplitWhitespace(text[1..])
    else [text[..WordEnd(text)]] + SplitWhitespace(text[WordEnd(text)..])
  }

  function ModeOn(): Bytes { "__rpictl_on" }

  function ModeOff(): Bytes { "__rpictl_off" }

  /** The commands that the client passes on. */
  predicate IsRemoteCommand(command: Bytes) {
    || command == "poweron"
    || command == "poweroff"
    || command == "poweroff --force"
    || command == "poweroff -f"
    || command == "powercycle"
    || command == "powerstatus"
    || command == "power"
    || command == "state"
  }

  datatype Operation =
    | DoPowerOn | DoGracefulPowerOff | DoForcedPowerOff | DoPowerCycle | ShowPower | ShowState | ShowHelp | Unknown

  function DispatchWord(word: Bytes): Operation {
    if word == "poweron" then DoPowerOn
    else if word == "poweroff" then DoGracefulPowerOff
    else if word == "powercycle" then DoPowerCycle
    else if word == "powerstatus" || word == "power" then ShowPower
    else if word == "state" then ShowState
    else if word == "help" then ShowHelp
    else Unknown
  }

  /** What the client's help text promises for a command that it passes on. */
  function Promised(command: Bytes): Operation
    requires IsRemoteCommand(command)
  {
    if command == "poweroff --force" || command == "poweroff -f" then DoForcedPowerOff
    else if command == "poweroff" then DoGracefulPowerOff
    else if command == "powercycle" then DoPowerCycle
    else if command == "poweron" then DoPowerOn
    else if command == "state" then ShowState
    else ShowPower
  }

  /** What the server does for a command line. */
  function Dispatch(line: Bytes): Operation {
    var parts := SplitWhitespace(line);
    if |parts| == 1 then DispatchWord(parts[0])
    else if |parts| == 2 && parts[0] == "poweroff" && (parts[1] == "--force" || parts[1] == "-f") then DoForcedPowerOff
    else Unknown
  }

  // ---- The client ----

  datatype Client = Client(commands: bool, buffer: Bytes, gone: bool)

  /** What a step of the client leaves: its state, what it has sent, and what was meant by it. */
  datatype ClientRun = ClientRun(client: Client, wire: Bytes, meant: seq<Event>)

  function ModeMessage(commands: bool): Bytes {
    ['\0'] + (if commands then ModeOn() else ModeOff()) + ['\n']
  }

  function CommandMessage(command: Bytes): Bytes {
    ['\0'] + command + ['\n']
  }

  function Pressed(c: Client, key: Byte): ClientRun {
    if c.gone then ClientRun(c, [], [])
    else if key as int == 0x1d then
      ClientRun(Client(!c.commands, [], false), ModeMessage(!c.commands), [ModeSet(!c.commands)])
    else if !c.commands then ClientRun(c, [key], [UartByte(key)])
    else if key == '\r' || key == '\n' then
      var command := Trim(c.buffer);
      var cleared := c.(buffer := []);
      if command == "exit" || command == "quit" then ClientRun(cleared.(gone := true), [], [])
      else if IsRemoteCommand(command) then ClientRun(cleared, CommandMessage(command), [Command(command)])
      else ClientRun(cleared, [], [])
    else if key as int == 8 || key as int == 0x7f then
      ClientRun(if c.buffer == [] then c else c.(buffer := c.buffer[..|c.buffer| - 1]), [], [])
    else if key as int >= 32 then ClientRun(c.(buffer := c.buffer + [key]), [], [])
    else ClientRun(c, [], [])
  }

  const CLIENT_START := Client(false, [], false)

  function Typed(keys: Bytes): ClientRun {
    if keys == [] then ClientRun(CLIENT_START, [], [])
    else
      var before := Typed(keys[..|keys| - 1]);
      var run := Pressed(before.client, keys[|keys| - 1]);
      ClientRun(run.client, before.wire + run.wire, before.meant + run.meant)
  }

  /** The foreground loop of the client, one keystroke at a time. */
  class ConsoleClient {
    var commands: bool
    var buffer: Bytes
    var wire: Bytes
    ghost var meant: seq<Event>

    constructor ()
      ensures commands == false && buffer == [] && wire == [] && meant == []
    {
      commands, buffer, wire, meant := false, [], [], [];
    }

    /** Reads keystrokes until they end or the user leaves. */
    method Read(keys: Bytes) returns (left: bool)
      requires commands == false && buffer == [] && wire == [] && meant == []
      modifies this
      ensures ClientRun(Client(commands, buffer, left), wire, meant) == Typed(keys)
    {
      hide Typed, IsRemoteCommand, Trim, ModeMessage;
      assert keys[..0] == [];
      TypedNothing();
      for i := 0 to |keys|
        invariant ClientRun(Client(commands, buffer, false), wire, meant) == Typed(keys[..i])
      {
        var key := keys[i];
        TypedStep(keys, i);
        if key as int == 0x1d {
          buffer := [];
          commands := !commands;
          wire := wire + ModeMessage(commands);
          meant := meant + [ModeSet(commands)];
          continue;
        }
        if !commands {
          wire := wire + [key];
          meant := meant + [UartByte(key)];
          continue;
        }
        if key == '\r' || key == '\n' {
          var command := Trim(buffer);
          buffer := [];
          if command == "exit" || command == "quit" {
            LeavingEndsTheRun(keys, i + 1);
            return true;
          }
          if command != "help" && command != [] && IsRemoteCommand(command) {
            wire := wire + CommandMessage(command);
            meant := meant + [Command(command)];
          } else {
            LocalCommands();
          }
        } else if key as int == 8 || key as int == 0x7f {
          if buffer != [] {
            buffer := buffer[..|buffer| - 1];
          }
        } else if key as int >= 32 {
          buffer := buffer + [key];
        }
      }
      assert keys[..|keys|] == keys;
      return false;
    }
  }

  lemma TypedNothing()
    ensures Typed([]) == ClientRun(CLIENT_START, [], [])
  {
  }

  lemma TypedStep(keys: Bytes, i: nat)
    requires i < |keys|
    ensures
      var before := Typed(keys[..i]);
      var run := Pressed(before.client, keys[i]);
      Typed(keys[..i + 1]) == ClientRun(run.client, before.wire + run.wire, before.meant + run.meant)
  {
    assert keys[..i + 1][..i] == keys[..i];
  }

  lemma {:induction false} LeavingEndsTheRun(keys: Bytes, i: nat)
    requires i <= |keys| && Typed(keys[..i]).client.gone
    ensures Typed(keys) == Typed(keys[..i])
    decreases |keys| - i
  {
    if i == |keys| {
      assert keys[..i] == keys;
    } else {
      TypedStep(keys, i);
      LeavingEndsTheRun(keys, i + 1);
    }
  }

  /** Help and the empty line are answered by the client itself. */
  lemma LocalCommands()
    ensures !IsRemoteCommand([]) && !IsRemoteCommand("help")
  {
  }

  // ---- The server ----

  datatype Server = Server(pending: Option<Bytes>, commands: bool)

  datatype ServerRun = ServerRun(server: Server, events: seq<Event>)

  function Received(s: Server, byte: Byte): ServerRun {
    match s.pending
    case Some(line) =>
      if byte == '\n' || byte == '\r' then
        var command := Trim(line);
        if command == ModeOn() then ServerRun(Server(None, true), [ModeSet(true)])
        else if command == ModeOff() then ServerRun(Server(None, false), [ModeSet(false)])
        else ServerRun(Server(None, s.commands), [Command(command)])
      else ServerRun(Server(Some(line + [byte]), s.commands), [])
    case None =>
      if byte == '\0' then ServerRun(Server(Some([]), s.commands), [])
      else ServerRun(s, [UartByte(byte)])
  }

  const SERVER_START := Server(None, false)

  function Parsed(s: Server, stream: Bytes): ServerRun {
    if stream == [] then ServerRun(s, [])
    else
      var before := Parsed(s, stream[..|stream| - 1]);
      var run := Received(before.server, stream[|stream| - 1]);
      ServerRun(run.server, before.events + run.events)
  }

  lemma {:induction false} ParsedJoin(s: Server, a: Bytes, b: Bytes)
    ensures
      var left := Parsed(s, a);
      var right := Parsed(left.server, b);
      Parsed(s, a + b) == ServerRun(right.server, left.events + right.events)
  {
    if b == [] {
      assert a + b == a;
    } else {
      ParsedJoin(s, a, b[..|b| - 1]);
      assert (a + b)[..|a + b| - 1] == a + b[..|b| - 1];
    }
  }

  function Joined(chunks: seq<Bytes>): Bytes {
    if chunks == [] then [] else Joined(chunks[..|chunks| - 1]) + chunks[|chunks| - 1]
  }

  /** The server's read loop. */
  class ConsoleServer {
    var pending: Option<Bytes>
    var commands: bool
    var events: seq<Event>

    constructor ()
      ensures Server(pending, commands) == SERVER_START && events == []
    {
      pending, commands, events := None, false, [];
    }

    /** One read: its bytes are taken one at a time. */
    method Feed(chunk: Bytes)
      modifies this
      ensures
        var run := Parsed(old(Server(pending, commands)), chunk);
        Server(pending, commands) == run.server && events == old(events) + run.events
    {
      hide Parsed, Trim, ModeOn, ModeOff;
      ghost var s := Server(pending, commands);
      assert chunk[..0] == [];
      ParsedNothing(s);
      for i := 0 to |chunk|
        invariant Parsed(s, chunk[..i]).server == Server(pending, commands)
        invariant events == old(events) + Parsed(s, chunk[..i]).events
      {
        var byte := chunk[i];
        ParsedStep(s, chunk, i);
        if pending.Some? {
          if byte == '\n' || byte == '\r' {
            var command := Trim(pending.value);
            pending := None;
            if command == ModeOn() {
              commands := true;
              events := events + [ModeSet(true)];
            } else if command == ModeOff() {
              commands := false;
              events := events + [ModeSet(false)];
            } else {
              events := events + [Command(command)];
            }
          } else {
            pending := Some(pending.value + [byte]);
          }
        } else if byte == '\0' {
          pending := Some([]);
        } else {
          events := events + [UartByte(byte)];
        }
      }
      assert chunk[..|chunk|] == chunk;
    }

    /** How the stream is cut into reads makes no difference. */
    method Serve(chunks: seq<Bytes>)
      modifies this
      ensures
        var run := Parsed(old(Server(pending, commands)), Joined(chunks));
        Server(pending, commands) == run.server && events == old(events) + run.events
    {
      hide Parsed, Joined;
      ghost var s := Server(pending, commands);
      ParsedNothing(s);
      JoinedStep(chunks, 0);
      for i := 0 to |chunks|
        invariant Parsed(s, Joined(chunks[..i])).server == Server(pending, commands)
        invariant events == old(events) + Parsed(s, Joined(chunks[..i])).events
      {
        JoinedStep(chunks, i);
        ParsedJoin(s, Joined(chunks[..i]), chunks[i]);
        Feed(chunks[i]);
      }
      assert chunks[..|chunks|] == chunks;
    }
  }

  lemma ParsedNothing(s: Server)
    ensures Parsed(s, []) == ServerRun(s, [])
  {
  }

  lemma ParsedStep(s: Server, stream: Bytes, i: nat)
    requires i < |stream|
    ensures
      var before := Parsed(s, stream[..i]);
      var run := Received(before.server, stream[i]);
      Parsed(s, stream[..i + 1]) == ServerRun(run.server, before.events + run.events)
  {
    assert stream[..i + 1][..i] == stream[..i];
  }

  lemma JoinedStep(chunks: seq<Bytes>, i: nat)
    requires i <= |chunks|
    ensures Joined(chunks[..0]) == []
    ensures i < |chunks| ==> Joined(chunks[..i + 1]) == Joined(chunks[..i]) + chunks[i]
  {
    if i < |chunks| {
      assert chunks[..i + 1][..i] == chunks[..i];
    }
  }

  // ---- What the server makes of the client's messages ----

  ghost predicate OneLine(text: Bytes) {
    '\n' !in text && '\r' !in text
  }

  lemma {:induction false} PendingLine(line: Bytes, text: Bytes, commands: bool)
    requires OneLine(text)
    ensures Parsed(Server(Some(line), commands), text) == ServerRun(Server(Some(line + text), commands), [])
  {
    if text == [] {
      assert line + text == line;
    } else {
      var rest := text[..|text| - 1];
      PendingLine(line, rest, commands);
      assert line + text == line + rest + [text[|text| - 1]];
    }
  }

  /** A message is one command, after which the server is outside of commands again. */
  lemma MessageParsed(line: Bytes, commands: bool)
    requires OneLine(line)
    ensures
      Parsed(Server(None, commands), ['\0'] + line + ['\n']) == Received(Server(Some(line), commands), '\n')
  {
    var s := Server(None, commands);
    var begun := Parsed(s, ['\0']);
    assert begun == ServerRun(Server(Some([]), commands), []) by {
      ParsedStep(s, ['\0'], 0);
      assert ['\0'][..1] == ['\0'];
    }
    PendingLine([], line, commands);
    assert [] + line == line;
    ParsedJoin(s, ['\0'], line);
    var message := ['\0'] + line + ['\n'];
    ParsedStep(s, message, |line| + 1);
    assert message[..|line| + 1] == ['\0'] + line && message[..|line| + 2] == message;
  }

  /** A text that neither begins nor ends with white space is not trimmed. */
  lemma TrimKeeps(text: Bytes)
    requires text != [] ==> !IsWhitespace(text[0]) && !IsWhitespace(text[|text| - 1])
    ensures Trim(text) == text
  {
  }

  ghost predicate IsWord(text: Bytes) {
    text != [] && forall i :: 0 <= i < |text| ==> !IsWhitespace(text[i])
  }

  lemma {:induction false} WordEndIs(word: Bytes, rest: Bytes)
    requires forall i :: 0 <= i < |word| ==> !IsWhitespace(word[i])
    requires rest == [] || IsWhitespace(rest[0])
    ensures WordEnd(word + rest) == |word|
  {
    if word == [] {
      assert word + rest == rest;
    } else {
      assert (word + rest)[1..] == word[1..] + rest;
      WordEndIs(word[1..], rest);
    }
  }

  lemma SplitWord(word: Bytes)
    requires IsWord(word)
    ensures SplitWhitespace(word) == [word]
  {
    WordEndIs(word, []);
    assert word + [] == word;
  }

  lemma SplitTwoWords(first: Bytes, second: Bytes)
    requires IsWord(first) && IsWord(second)
    ensures SplitWhitespace(first + [' '] + second) == [first, second]
  {
    var text := first + [' '] + second;
    WordEndIs(first, [' '] + second);
    assert text == first + ([' '] + second);
    assert text[|first|..][1..] == second;
    SplitWord(second);
  }

  predicate IsLetter(c: Byte) {
    'a' <= c <= 'z'
  }

  /** Only "poweroff" takes an option. */
  lemma RemoteCommandShape(command: Bytes)
    requires IsRemoteCommand(command)
    ensures command != [] && IsLetter(command[0]) && IsLetter(command[|command| - 1])
    ensures OneLine(command)
    ensures IsWord(command) || command == "poweroff" + [' '] + "--force" || command == "poweroff" + [' '] + "-f"
  {
    if |command| >= 11 {
      assert command == "powerstatus" || command == "poweroff" + [' '] + "-f" || command == "poweroff" + [' '] + "--force";
    }
  }

  /** Every command that the client passes on travels unchanged. */
  lemma RemoteCommandTravels(command: Bytes)
    requires IsRemoteCommand(command)
    ensures OneLine(command) && Trim(command) == command && command != ModeOn() && command != ModeOff()
  {
    RemoteCommandShape(command);
    hide IsRemoteCommand;
    TrimKeeps(command);
  }

  lemma RemoteWordIsKnown(word: Bytes)
    requires IsRemoteCommand(word) && IsWord(word)
    ensures DispatchWord(word) == Promised(word)
  {
    assert IsWhitespace(' ') && !IsWord("poweroff -f") && !IsWord("poweroff --force") by {
      assert "poweroff -f"[8] == ' ' && "poweroff --force"[8] == ' ';
    }
    hide IsWord;
  }

  lemma OptionIsKnown(option: Bytes)
    requires option == "--force" || option == "-f"
    ensures Dispatch("poweroff" + [' '] + option) == DoForcedPowerOff
    ensures IsRemoteCommand("poweroff" + [' '] + option) && Promised("poweroff" + [' '] + option) == DoForcedPowerOff
  {
    hide SplitWhitespace;
    SplitTwoWords("poweroff", option);
  }

  /** The server does for every command that the client passes on what the client promises. */
  lemma RemoteCommandIsKnown(command: Bytes)
    requires IsRemoteCommand(command)
    ensures Dispatch(command) == Promised(command)
  {
    RemoteCommandShape(command);
    hide SplitWhitespace, IsRemoteCommand, DispatchWord, IsWord, Promised;
    if IsWord(command) {
      RemoteWordIsKnown(command);
      SplitWord(command);
    } else {
      OptionIsKnown("--force");
      OptionIsKnown("-f");
    }
  }

  lemma ModeMessageParsed(on: bool, commands: bool)
    ensures Parsed(Server(None, commands), ModeMessage(on)) == ServerRun(Server(None, on), [ModeSet(on)])
  {
    TrimKeeps(ModeOn());
    TrimKeeps(ModeOff());
    MessageParsed(if on then ModeOn() else ModeOff(), commands);
  }

  lemma CommandMessageParsed(command: Bytes, commands: bool)
    requires IsRemoteCommand(command)
    ensures Parsed(Server(None, commands), CommandMessage(command)) == ServerRun(Server(None, commands), [Command(command)])
  {
    RemoteCommandTravels(command);
    MessageParsed(command, commands);
  }

  lemma ByteParsed(b: Byte, commands: bool)
    requires b != '\0'
    ensures Parsed(Server(None, commands), [b]) == ServerRun(Server(None, commands), [UartByte(b)])
  {
    ParsedStep(Server(None, commands), [b], 0);
    assert [b][..1] == [b];
  }

  /** A NUL was typed while the client was in UART mode. */
  predicate TypedNul(keys: Bytes) {
    keys != [] &&
    var c := Typed(keys[..|keys| - 1]).client;
    TypedNul(keys[..|keys| - 1]) || (keys[|keys| - 1] == '\0' && !c.gone && !c.commands)
  }

  lemma PressedParsed(c: Client, key: Byte)
    requires !(key == '\0' && !c.gone && !c.commands)
    ensures
      var run := Pressed(c, key);
      Parsed(Server(None, c.commands), run.wire) == ServerRun(Server(None, run.client.commands), run.meant)
  {
    hide Parsed, IsRemoteCommand, Trim, ModeMessage, CommandMessage;
    var run := Pressed(c, key);
    ParsedNothing(Server(None, c.commands));
    if !c.gone {
      if key as int == 0x1d {
        ModeMessageParsed(!c.commands, c.commands);
      } else if !c.commands {
        ByteParsed(key, c.commands);
      } else if (key == '\r' || key == '\n') && IsRemoteCommand(Trim(c.buffer)) {
        CommandMessageParsed(Trim(c.buffer), c.commands);
      }
    }
  }

  /** Without such a NUL the server recovers what was meant, and ends outside of commands in the client's mode. */
  lemma {:induction false} RecoversWithoutNul(keys: Bytes)
    requires !TypedNul(keys)
    ensures
      var run := Typed(keys);
      Parsed(SERVER_START, run.wire) == ServerRun(Server(None, run.client.commands), run.meant)
  {
    if keys == [] {
      ParsedNothing(SERVER_START);
    } else {
      var before := Typed(keys[..|keys| - 1]);
      RecoversWithoutNul(keys[..|keys| - 1]);
      PressedParsed(before.client, keys[|keys| - 1]);
      ParsedJoin(SERVER_START, before.wire, Pressed(before.client, keys[|keys| - 1]).wire);
    }
  }

  lemma {:induction false} ServerForwardsNoNul(s: Server, stream: Bytes)
    ensures UartByte('\0') !in Parsed(s, stream).events
  {
    if stream != [] {
      ServerForwardsNoNul(s, stream[..|stream| - 1]);
    }
  }

  lemma {:induction false} TypedNulIsMeant(keys: Bytes)
    requires TypedNul(keys)
    ensures UartByte('\0') in Typed(keys).meant
  {
    var front := keys[..|keys| - 1];
    if TypedNul(front) {
      TypedNulIsMeant(front);
    }
  }

  /** The server takes out of the client's stream what was meant, in order. */
  ghost predicate Understood(keys: Bytes) {
    Parsed(SERVER_START, Typed(keys).wire).events == Typed(keys).meant
  }

  /** Whatever was typed, the server understands it if and only if no NUL was typed in UART mode. */
  lemma ServerUnderstandsClient(keys: Bytes)
    ensures Understood(keys) <==> !TypedNul(keys)
  {
    hide Parsed, Typed, TypedNul;
    if TypedNul(keys) {
      TypedNulIsMeant(keys);
      ServerForwardsNoNul(SERVER_START, Typed(keys).wire);
    } else {
      RecoversWithoutNul(keys);
    }
  }

  /** Whatever is typed, a command that the client passes on is never answered as unknown. */
  lemma {:induction false} NeverUnknown(keys: Bytes)
    ensures forall e :: e in Typed(keys).meant && e.Command? ==>
                          IsRemoteCommand(e.line) && Dispatch(e.line) == Promised(e.line) && Dispatch(e.line) != Unknown
  {
    if keys != [] {
      var front := keys[..|keys| - 1];
      NeverUnknown(front);
      var run := Pressed(Typed(front).client, keys[|keys| - 1]);
      forall e | e in run.meant && e.Command?
        ensures IsRemoteCommand(e.line) && Dispatch(e.line) == Promised(e.line) && Dispatch(e.line) != Unknown
      {
        RemoteCommandIsKnown(e.line);
      }
    }
  }
}
