/**
 What the keys typed at the interactive client mean, said of the keys alone: without a line buffer, and
 reading each line from its end. The client's loop is shown to mean the same.
 */
module Keystrokes {
  import opened Basics
  import opened Console

  predicate IsToggle(key: Byte) {
    key as int == 0x1d
  }

  predicate IsErase(key: Byte) {
    key as int == 8 || key as int == 0x7f
  }

  /** Enter, or the toggle, which abandons the line. */
  predicate EndsLine(key: Byte) {
    key == '\r' || key == '\n' || IsToggle(key)
  }

  /**
   The characters of a line that survive, when so many erases follow it: other control keys leave
   nothing, and each erase cancels the nearest character before it that still survives.
   */
  function Surviving(keys: Bytes, erased: nat): Bytes {
    if keys == [] then []
    else
      var front, last := keys[..|keys| - 1], keys[|keys| - 1];
      if IsErase(last) then Surviving(front, erased + 1)
      else if last as int < 32 then Surviving(front, erased)
      else if erased > 0 then Surviving(front, erased - 1)
      else Surviving(front, 0) + [last]
  }

  /** How many keys are typed before the line ends, if it does. */
  function LineLength(keys: Bytes): (n: nat)
    ensures n <= |keys|
    ensures n < |keys| ==> EndsLine(keys[n])
    ensures forall i :: 0 <= i < n ==> !EndsLine(keys[i])
  {
    if keys == [] || EndsLine(keys[0]) then 0 else 1 + LineLength(keys[1..])
  }

  function LineOf(keys: Bytes): Bytes {
    Trim(Surviving(keys, 0))
  }

  /** The commands that are passed on. */
  predicate IsWhitelisted(line: Bytes) {
    line in ["poweron", "poweroff", "poweroff --force", "poweroff -f", "powercycle", "powerstatus", "power", "state"]
  }

  /**
   What the keys mean in one mode or the other: a UART key itself, a toggle the other mode, and a line
   ended by Enter its whitelisted command, until a line that says exit or quit.
   */
  function Intent(keys: Bytes, commands: bool): seq<Event>
    decreases |keys|
  {
    if keys == [] then []
    else if !commands then
      (if IsToggle(keys[0]) then [ModeSet(true)] else [UartByte(keys[0])]) + Intent(keys[1..], IsToggle(keys[0]))
    else
      var n := LineLength(keys);
      if n == |keys| then []
      else if IsToggle(keys[n]) then [ModeSet(false)] + Intent(keys[n + 1..], false)
      else
        var line := LineOf(keys[..n]);
        if line == "exit" || line == "quit" then []
        else (if IsWhitelisted(line) then [Command(line)] else []) + Intent(keys[n + 1..], true)
  }

  // ---- What survives ----

  /** A line without its last n characters, or as many as it has. */
  function WithoutLast(line: Bytes, n: nat): Bytes {
    line[..Max(0, |line| - n)]
  }

  lemma {:induction false} ErasingIsDropping(keys: Bytes, n: nat)
    ensures Surviving(keys, n) == WithoutLast(Surviving(keys, 0), n)
  {
    if keys != [] {
      var front, last := keys[..|keys| - 1], keys[|keys| - 1];
      if IsErase(last) {
        ErasingIsDropping(front, n + 1);
        ErasingIsDropping(front, 1);
      } else if last as int < 32 {
        ErasingIsDropping(front, n);
      } else if n > 0 {
        ErasingIsDropping(front, n - 1);
      }
    }
  }

  // ---- The client, key by key from any state ----

  function Typing(c: Client, keys: Bytes): ClientRun {
    if keys == [] then ClientRun(c, [], [])
    else
      var before := Typing(c, keys[..|keys| - 1]);
      var run := Pressed(before.client, keys[|keys| - 1]);
      ClientRun(run.client, before.wire + run.wire, before.meant + run.meant)
  }

  lemma {:induction false} TypedIsTyping(keys: Bytes)
    ensures Typed(keys) == Typing(CLIENT_START, keys)
  {
    if keys != [] {
      TypedIsTyping(keys[..|keys| - 1]);
    }
  }

  lemma {:induction false} TypingJoin(c: Client, a: Bytes, b: Bytes)
    ensures
      var left := Typing(c, a);
      var right := Typing(left.client, b);
      Typing(c, a + b) == ClientRun(right.client, left.wire + right.wire, left.meant + right.meant)
  {
    hide Pressed;
    if b == [] {
      assert a + b == a;
    } else {
      TypingJoin(c, a, b[..|b| - 1]);
      assert (a + b)[..|a + b| - 1] == a + b[..|b| - 1];
    }
  }

  lemma TypingOne(c: Client, key: Byte)
    ensures Typing(c, [key]) == Pressed(c, key)
  {
    assert [key][..0] == [];
    assert Typing(c, []) == ClientRun(c, [], []);
  }

  lemma {:induction false} NothingAfterLeaving(c: Client, keys: Bytes)
    requires c.gone
    ensures Typing(c, keys) == ClientRun(c, [], [])
  {
    if keys != [] {
      NothingAfterLeaving(c, keys[..|keys| - 1]);
    }
  }

  /** Within a line the client keeps what survives so far, and nothing is meant yet. */
  lemma {:induction false} LineIsBuffered(keys: Bytes)
    requires forall i :: 0 <= i < |keys| ==> !EndsLine(keys[i])
    ensures
      var run := Typing(Client(true, [], false), keys);
      run.client == Client(true, Surviving(keys, 0), false) && run.meant == []
  {
    if keys != [] {
      LineIsBuffered(keys[..|keys| - 1]);
      ErasingIsDropping(keys[..|keys| - 1], 1);
    }
  }

  /** White space as Unicode has it below 256: tab to carriage return, space, next line and no-break space. */
  lemma WhitespaceIs(c: Byte)
    ensures IsWhitespace(c) <==> c as int in [9, 10, 11, 12, 13, 32, 133, 160]
  {
  }

  /** The client's whitelist has these eight commands and no other. */
  lemma WhitelistIs(line: Bytes)
    ensures IsRemoteCommand(line) <==> IsWhitelisted(line)
  {
  }

  /** What pressing the key that ends a line means. */
  lemma LineEnds(line: Bytes, key: Byte)
    requires EndsLine(key)
    ensures
      var run := Pressed(Client(true, line, false), key);
      var command := Trim(line);
      if IsToggle(key) then run.client == Client(false, [], false) && run.meant == [ModeSet(false)]
      else if command == "exit" || command == "quit" then run.client.gone && run.meant == []
      else
        && run.client == Client(true, [], false)
        && run.meant == if IsWhitelisted(command) then [Command(command)] else []
  {
    WhitelistIs(Trim(line));
    hide Trim, IsRemoteCommand, IsWhitelisted, ModeMessage, CommandMessage;
  }

  /** A first key, and the rest from the state it leaves. */
  lemma TypingFirst(c: Client, keys: Bytes, n: nat)
    requires n < |keys|
    ensures
      var line := Typing(c, keys[..n]);
      var ended := Pressed(line.client, keys[n]);
      Typing(c, keys).meant == line.meant + ended.meant + Typing(ended.client, keys[n + 1..]).meant
  {
    hide Typing, Pressed;
    TypingOne(Typing(c, keys[..n]).client, keys[n]);
    TypingJoin(c, keys[..n], [keys[n]]);
    TypingJoin(c, keys[..n] + [keys[n]], keys[n + 1..]);
    assert keys[..n] + [keys[n]] + keys[n + 1..] == keys;
  }

  lemma UartKeyMeans(key: Byte)
    ensures
      var run := Pressed(Client(false, [], false), key);
      && run.client == Client(IsToggle(key), [], false)
      && run.meant == if IsToggle(key) then [ModeSet(true)] else [UartByte(key)]
  {
  }

  lemma {:induction false} TypingIsIntent(keys: Bytes, commands: bool)
    ensures Typing(Client(commands, [], false), keys).meant == Intent(keys, commands)
    decreases |keys|
  {
    hide Surviving, Trim, Pressed, IsWhitelisted, LineLength, EndsLine;
    var c := Client(commands, [], false);
    if keys != [] && !commands {
      assert keys[..0] == [];
      hide Typing;
      TypingNothing(c);
      TypingFirst(c, keys, 0);
      UartKeyMeans(keys[0]);
      TypingIsIntent(keys[1..], IsToggle(keys[0]));
    } else if keys != [] {
      hide Typing;
      TypingLine(keys);
      var n := LineLength(keys);
      if n < |keys| {
        var ended := Pressed(Client(true, Surviving(keys[..n], 0), false), keys[n]);
        LineEnds(Surviving(keys[..n], 0), keys[n]);
        if ended.client.gone {
          NothingAfterLeaving(ended.client, keys[n + 1..]);
        } else {
          TypingIsIntent(keys[n + 1..], !IsToggle(keys[n]));
        }
      }
    }
  }

  lemma TypingNothing(c: Client)
    ensures Typing(c, []) == ClientRun(c, [], [])
  {
  }

  /** One line, and the rest from the state that its end leaves. */
  lemma TypingLine(keys: Bytes)
    ensures
      var n := LineLength(keys);
      var c := Client(true, [], false);
      if n == |keys| then Typing(c, keys).meant == []
      else
        var ended := Pressed(Client(true, Surviving(keys[..n], 0), false), keys[n]);
        Typing(c, keys).meant == ended.meant + Typing(ended.client, keys[n + 1..]).meant
  {
    hide Typing, Surviving, Pressed, LineLength, EndsLine;
    var n := LineLength(keys);
    LineIsBuffered(keys[..n]);
    if n == |keys| {
      assert keys[..n] == keys;
    } else {
      TypingFirst(Client(true, [], false), keys, n);
      var ended := Pressed(Client(true, Surviving(keys[..n], 0), false), keys[n]);
      assert [] + ended.meant == ended.meant;
    }
  }

  /** What the client's loop means by the keys is what the keys mean. */
  lemma ClientMeansTheKeys(keys: Bytes)
    ensures Typed(keys).meant == Intent(keys, false)
  {
    TypedIsTyping(keys);
    TypingIsIntent(keys, false);
  }

  /** The server takes out of what the client sent exactly what the keys mean, in order. */
  ghost predicate Delivers(keys: Bytes) {
    Parsed(SERVER_START, Typed(keys).wire).events == Intent(keys, false)
  }

  /** For every sequence of keys, what they mean reaches the server if and only if it includes no NUL for the UART. */
  lemma KeysReachTheServer(keys: Bytes)
    ensures Delivers(keys) <==> UartByte('\0') !in Intent(keys, false)
  {
    hide Parsed, Typed, TypedNul, Intent;
    ClientMeansTheKeys(keys);
    ServerUnderstandsClient(keys);
    if TypedNul(keys) {
      TypedNulIsMeant(keys);
    } else {
      RecoversWithoutNul(keys);
      ServerForwardsNoNul(SERVER_START, Typed(keys).wire);
    }
  }
}
