/**
 How one console command is framed on the UART, and what its completion marker proves.
 Commands are taken as text whose characters fit one byte each.
 */
module CommandFraming {
  import opened Basics

  predicate IsControl(c: Byte) {
    c < ' ' || 0x7f <= c as int <= 0x9f
  }

  ghost predicate NoControl(text: Bytes) {
    forall i :: 0 <= i < |text| ==> !IsControl(text[i])
  }

  /** One nonempty line without control characters. */
  ghost predicate IsOneLine(command: Bytes) {
    command != [] && NoControl(command)
  }

  method ValidateOneLine(command: Bytes) returns (r: Result<Unit>)
    ensures r == if IsOneLine(command) then Ok(Unit) else Err(Error(CommandDenied, "policy"))
  {
    if command == [] || '\r' in command || '\n' in command || '\0' in command {
      return Err(Error(CommandDenied, "policy"));
    }
    for i := 0 to |command|
      invariant forall j :: 0 <= j < i ==> !IsControl(command[j])
    {
      if IsControl(command[i]) {
        return Err(Error(CommandDenied, "policy"));
      }
    }
    return Ok(Unit);
  }

  /** So a command is accepted exactly when it is not empty and every character prints, or is a space. */
  lemma OneLineMeaning(command: Bytes)
    ensures IsOneLine(command) <==>
            command != [] && forall i :: 0 <= i < |command| ==>
              32 <= command[i] as int <= 126 || 160 <= command[i] as int <= 255
  {
  }

  predicate IsHex(c: Byte) {
    '0' <= c <= '9' || 'a' <= c <= 'f'
  }

  /** The completion marker of one operation: the hexadecimal digits of its id, in a fixed frame. */
  ghost predicate IsMarker(marker: Bytes) {
    && 11 <= |marker|
    && marker[..9] == "__RPICTL_"
    && marker[|marker| - 2..] == "__"
    && (forall i :: 9 <= i < |marker| - 2 ==> IsHex(marker[i]))
  }

  predicate IsMarkerChar(c: Byte) {
    IsHex(c) || c == '_' || 'A' <= c <= 'Z'
  }

  ghost predicate IsMarkerText(text: Bytes) {
    forall i :: 0 <= i < |text| ==> IsMarkerChar(text[i])
  }

  lemma MarkerShape(marker: Bytes)
    requires IsMarker(marker)
    ensures 11 <= |marker| && marker[0] == '_' && IsMarkerText(marker)
  {
    forall i | 0 <= i < |marker|
      ensures IsMarkerChar(marker[i])
    {
      if i < 9 {
        assert marker[i] == marker[..9][i];
      } else if |marker| - 2 <= i {
        assert marker[i] == marker[|marker| - 2..][i - (|marker| - 2)];
      }
    }
  }

  /** What is sent between the command's separator and its marker. */
  function Lead(): Bytes { " printf '\\" }

  /** What is sent between the marker's colon and the carriage return. */
  function Trail(): Bytes { "%s\\n' \"$?\"" }

  lemma TemplateShape()
    ensures |Lead()| == 10 && NoControl(Lead())
    ensures |Trail()| == 10 && NoControl(Trail()) && Trail()[0] == '%'
  {
  }

  /** What `console_command` writes to the UART. */
  function Wire(command: Bytes, marker: Bytes, linux: bool): Bytes {
    if linux then LinuxWire(command, Lead(), marker, Trail()) else command + ['\r']
  }

  function LinuxWire(command: Bytes, lead: Bytes, marker: Bytes, trail: Bytes): Bytes {
    command + [';'] + lead + ['n'] + marker + [':'] + trail + ['\r']
  }

  // ---- Frames ----

  /** Text that ends with its only carriage return and has no line feed. */
  ghost predicate IsFrame(wire: Bytes) {
    && wire != []
    && wire[|wire| - 1] == '\r'
    && '\r' !in wire[..|wire| - 1]
    && '\n' !in wire
  }

  lemma NoControlJoin(a: Bytes, b: Bytes)
    requires NoControl(a) && NoControl(b)
    ensures NoControl(a + b)
  {
  }

  lemma NoControlIsFrame(text: Bytes)
    requires NoControl(text)
    ensures IsFrame(text + ['\r'])
  {
    assert (text + ['\r'])[..|text|] == text;
  }

  /** Every accepted command travels as one frame. */
  lemma WireIsFrame(command: Bytes, marker: Bytes, linux: bool)
    requires IsOneLine(command) && IsMarker(marker)
    ensures IsFrame(Wire(command, marker, linux))
  {
    if linux {
      MarkerShape(marker);
      TemplateShape();
      assert NoControl(marker) && NoControl([';']) && NoControl(['n']) && NoControl([':']);
      hide IsMarker, Lead, Trail, NoControl, IsFrame;
      NoControlJoin(command, [';']);
      NoControlJoin(command + [';'], Lead());
      NoControlJoin(command + [';'] + Lead(), ['n']);
      NoControlJoin(command + [';'] + Lead() + ['n'], marker);
      NoControlJoin(command + [';'] + Lead() + ['n'] + marker, [':']);
      NoControlJoin(command + [';'] + Lead() + ['n'] + marker + [':'], Trail());
      NoControlIsFrame(command + [';'] + Lead() + ['n'] + marker + [':'] + Trail());
    } else {
      NoControlIsFrame(command);
    }
  }

  lemma FrameEnds(a: Bytes, b: Bytes, x: Bytes, y: Bytes)
    requires IsFrame(a) && IsFrame(b) && a + x == b + y
    ensures |b| <= |a|
  {
    var k := |a| - 1;
    assert (a + x)[k] == '\r';
    var inside := b[..|b| - 1];
    assert b + y == inside + (['\r'] + y);
    assert forall i :: 0 <= i < |inside| ==> (inside + (['\r'] + y))[i] == inside[i];
  }

  function Sent(wires: seq<Bytes>): Bytes {
    if wires == [] then [] else wires[0] + Sent(wires[1..])
  }

  /** A stream of frames splits back into those frames and no others. */
  lemma {:induction false} FramesSplitUniquely(a: seq<Bytes>, b: seq<Bytes>)
    requires forall i :: 0 <= i < |a| ==> IsFrame(a[i])
    requires forall i :: 0 <= i < |b| ==> IsFrame(b[i])
    requires Sent(a) == Sent(b)
    ensures a == b
  {
    if a != [] && b != [] {
      var stream := Sent(a);
      FrameEnds(a[0], b[0], Sent(a[1..]), Sent(b[1..]));
      FrameEnds(b[0], a[0], Sent(b[1..]), Sent(a[1..]));
      assert a[0] == stream[..|a[0]|] == b[0];
      assert Sent(a[1..]) == stream[|a[0]|..] == Sent(b[1..]);
      FramesSplitUniquely(a[1..], b[1..]);
      assert a == [a[0]] + a[1..];
      assert b == [b[0]] + b[1..];
    }
  }

  // ---- Markers ----

  lemma InWord(text: Bytes, word: Bytes, i: nat, k: nat)
    requires OccursAt(text, word, i) && i <= k < i + |word|
    ensures text[k] in word
  {
    assert text[i..i + |word|][k - i] == text[k];
  }

  /** A word does not straddle a character it does not contain. */
  lemma OccursOnOneSide(left: Bytes, separator: Byte, right: Bytes, word: Bytes, i: nat)
    requires word != [] && separator !in word
    requires OccursAt(left + [separator] + right, word, i)
    ensures OccursAt(left, word, i) || (|left| < i && OccursAt(right, word, i - |left| - 1))
  {
    var text := left + [separator] + right;
    if i <= |left| < i + |word| {
      InWord(text, word, i, |left|);
      assert false;
    } else if i + |word| <= |left| {
      assert text[i..i + |word|] == left[i..i + |word|];
    } else {
      var k := i - |left| - 1;
      assert text[i..i + |word|] == right[k..k + |word|];
    }
  }

  lemma MarkerPlacesIn(
      prefix: Bytes, lead: Bytes, marker: Bytes, trail: Bytes, rest: Bytes, i: nat)
    requires marker != [] && IsMarkerText(marker) && |lead| < |marker| && |trail| < |marker|
    requires !Contains(prefix, marker)
    requires OccursAt(LinuxWire(prefix, lead, marker, trail) + rest, marker, i)
    ensures
      var echo := |LinuxWire(prefix, lead, marker, trail)|;
      || i == |prefix| + |lead| + 2
      || (echo <= i && OccursAt(rest, marker, i - echo))
  {
    assert forall c :: c in [';', 'n', ':', '\r'] ==> c !in marker;
    var afterColon := trail + ['\r'] + rest;
    var afterLead := marker + [':'] + afterColon;
    var afterCommand := lead + ['n'] + afterLead;
    assert LinuxWire(prefix, lead, marker, trail) + rest == prefix + [';'] + afterCommand;
    OccursOnOneSide(prefix, ';', afterCommand, marker, i);
    var j := i - |prefix| - 1;
    OccursOnOneSide(lead, 'n', afterLead, marker, j);
    var k := j - |lead| - 1;
    OccursOnOneSide(marker, ':', afterColon, marker, k);
    if k > 0 {
      OccursOnOneSide(trail, '\r', rest, marker, k - |marker| - 1);
    }
  }

  /** In the echo of a marker-free command, the only marker is the one its format string carries. */
  lemma MarkerPlaces(before: Bytes, command: Bytes, marker: Bytes, rest: Bytes, i: nat)
    requires IsMarker(marker) && !Contains(before + command, marker)
    requires OccursAt(before + Wire(command, marker, true) + rest, marker, i)
    ensures
      var echo := |before| + |Wire(command, marker, true)|;
      || i == |before| + |command| + |Lead()| + 2
      || (echo <= i && OccursAt(rest, marker, i - echo))
  {
    MarkerShape(marker);
    TemplateShape();
    hide Lead, Trail;
    EchoIsWire(before, command, Lead(), marker, Trail());
    hide IsMarker;
    MarkerPlacesIn(before + command, Lead(), marker, Trail(), rest, i);
  }

  /** The echo does carry the marker once, and goes on with the template, not with a status. */
  lemma TemplateMarker(prefix: Bytes, lead: Bytes, marker: Bytes, trail: Bytes, rest: Bytes)
    requires trail != []
    ensures
      var output := LinuxWire(prefix, lead, marker, trail) + rest;
      var at := |prefix| + |lead| + 2;
      && OccursAt(output, marker, at)
      && output[at + |marker| + 1] == trail[0]
  {
    var head := prefix + [';'] + lead + ['n'];
    var tail := [':'] + trail + ['\r'] + rest;
    assert LinuxWire(prefix, lead, marker, trail) + rest == head + (marker + tail);
    assert OccursAt(marker + tail, marker, 0);
    OccursInTail(head, marker + tail, marker, 0);
    assert tail[1] == trail[0];
  }

  lemma EchoIsWire(before: Bytes, command: Bytes, lead: Bytes, marker: Bytes, trail: Bytes)
    ensures before + LinuxWire(command, lead, marker, trail) == LinuxWire(before + command, lead, marker, trail)
  {
  }

  /** The text that reports success. */
  function Success(marker: Bytes): Bytes {
    marker + [':', '0']
  }

  lemma SuccessHasMarker(text: Bytes, marker: Bytes, i: nat)
    requires OccursAt(text, Success(marker), i)
    ensures OccursAt(text, marker, i) && text[i + |marker|] == ':' && text[i + |marker| + 1] == '0'
  {
    var found := text[i..i + |marker| + 2];
    assert found[|marker|] == ':' && found[|marker| + 1] == '0';
    SliceOfSlice(text, i, i + |marker| + 2, 0, |marker|);
    assert Success(marker)[..|marker|] == marker;
  }

  lemma TemplateIsNotSuccess(before: Bytes, command: Bytes, marker: Bytes, rest: Bytes)
    ensures !OccursAt(before + Wire(command, marker, true) + rest, Success(marker), |before| + |command| + |Lead()| + 2)
  {
    TemplateShape();
    EchoIsWire(before, command, Lead(), marker, Trail());
    TemplateMarker(before + command, Lead(), marker, Trail(), rest);
    hide Lead, Trail, LinuxWire;
    var at := |before| + |command| + |Lead()| + 2;
    if OccursAt(before + Wire(command, marker, true) + rest, Success(marker), at) {
      SuccessHasMarker(before + Wire(command, marker, true) + rest, marker, at);
    }
  }

  /**
   The echo never looks like success: after a marker-free command, a success report lies wholly in
   what the board sent after the echo, not even straddling the two.
   */
  lemma EchoIsNotSuccess(before: Bytes, command: Bytes, marker: Bytes, rest: Bytes, i: nat)
    requires IsMarker(marker) && !Contains(before + command, marker)
    requires OccursAt(before + Wire(command, marker, true) + rest, Success(marker), i)
    ensures
      var echo := |before| + |Wire(command, marker, true)|;
      echo <= i && OccursAt(rest, Success(marker), i - echo)
  {
    hide Lead, Trail, LinuxWire, Wire, IsMarker, Success, OccursAt;
    var echo := before + Wire(command, marker, true);
    SuccessHasMarker(echo + rest, marker, i);
    MarkerPlaces(before, command, marker, rest, i);
    TemplateIsNotSuccess(before, command, marker, rest);
    OccursInTail(echo, rest, Success(marker), i - |echo|);
  }

  /** How `console_command` judges the output of a Linux command. */
  function Verdict(output: Bytes, marker: Bytes): Result<Bytes> {
    if Includes(output, Success(marker)) then Ok(output)
    else if Includes(output, marker) then Err(Error(CommandExitNonzero, "command"))
    else Err(Error(CommandTimeout, "command"))
  }

  /** Once the echo is in the output, success is reported exactly when the board reported it after the echo. */
  lemma VerdictAfterEcho(before: Bytes, command: Bytes, marker: Bytes, rest: Bytes)
    requires IsMarker(marker) && !Contains(before + command, marker)
    ensures
      var output := before + Wire(command, marker, true) + rest;
      Verdict(output, marker) ==
      if Contains(rest, Success(marker)) then Ok(output) else Err(Error(CommandExitNonzero, "command"))
  {
    TemplateShape();
    EchoIsWire(before, command, Lead(), marker, Trail());
    TemplateMarker(before + command, Lead(), marker, Trail(), rest);
    hide Lead, Trail, LinuxWire, IsMarker;
    var echo := before + Wire(command, marker, true);
    RFindMeaning(echo + rest, Success(marker));
    RFindMeaning(echo + rest, marker);
    if i: nat :| OccursAt(echo + rest, Success(marker), i) {
      EchoIsNotSuccess(before, command, marker, rest, i);
    }
    if i: nat :| OccursAt(rest, Success(marker), i) {
      OccursInTail(echo, rest, Success(marker), i);
    }
  }

  /** A number in canonical decimal. */
  function Decimal(n: nat): Bytes {
    if n < 10 then [('0' as int + n) as char] else Decimal(n / 10) + Decimal(n % 10)
  }

  lemma {:induction false} DecimalShape(n: nat)
    ensures Decimal(n) != [] && (Decimal(n)[0] == '0' <==> n == 0)
    ensures forall i :: 0 <= i < |Decimal(n)| ==> '0' <= Decimal(n)[i] <= '9'
  {
    if n >= 10 {
      DecimalShape(n / 10);
      DecimalShape(n % 10);
    }
  }

  function ValueOf(digits: Bytes): int {
    if digits == [] then 0 else 10 * ValueOf(digits[..|digits| - 1]) + (digits[|digits| - 1] as int - '0' as int)
  }

  /** Reading the digits back gives the number. */
  lemma {:induction false} DecimalValue(n: nat)
    ensures ValueOf(Decimal(n)) == n
  {
    if n >= 10 {
      DecimalValue(n / 10);
      var digit: Bytes := Decimal(n % 10);
      assert Decimal(n) == Decimal(n / 10) + digit;
      assert Decimal(n)[..|Decimal(n)| - 1] == Decimal(n / 10);
    } else {
      assert Decimal(n)[..0] == [];
    }
  }

  // ---- What the shell prints ----

  /** What printf makes of a format with its one argument: \n is a line feed, %s the argument, all else itself. */
  function Printf(format: Bytes, argument: Bytes): Bytes {
    if format == [] then []
    else if |format| > 1 && format[0] == '\\' && format[1] == 'n' then ['\n'] + Printf(format[2..], argument)
    else if |format| > 1 && format[0] == '%' && format[1] == 's' then argument + Printf(format[2..], argument)
    else [format[0]] + Printf(format[1..], argument)
  }

  lemma {:induction false} PrintfPlain(text: Bytes, rest: Bytes, argument: Bytes)
    requires '\\' !in text && '%' !in text
    ensures Printf(text + rest, argument) == text + Printf(rest, argument)
  {
    if text == [] {
      assert text + rest == rest;
    } else {
      assert (text + rest)[1..] == text[1..] + rest;
      PrintfPlain(text[1..], rest, argument);
    }
  }

  function LineFeed(): Bytes { "\\n" }

  function Conversion(): Bytes { "%s" }

  /** The format of the completion report. */
  function ReportFormat(marker: Bytes): Bytes {
    LineFeed() + (marker + [':']) + Conversion() + LineFeed()
  }

  /** The shell line: the command, then the report, quoted, of the command's exit status. */
  function ShellLine(command: Bytes, format: Bytes): Bytes {
    command + "; printf '" + format + "' \"$?\"" + ['\r']
  }

  lemma PrintfLineFeed(rest: Bytes, argument: Bytes)
    ensures Printf(LineFeed() + rest, argument) == ['\n'] + Printf(rest, argument)
  {
    assert (LineFeed() + rest)[2..] == rest;
  }

  lemma PrintfConversion(rest: Bytes, argument: Bytes)
    ensures Printf(Conversion() + rest, argument) == argument + Printf(rest, argument)
  {
    assert (Conversion() + rest)[2..] == rest;
  }

  /** What is sent is such a line, with nothing in the format that could end its quotes. */
  lemma WireIsShellLine(command: Bytes, marker: Bytes)
    requires IsMarker(marker)
    ensures Wire(command, marker, true) == ShellLine(command, ReportFormat(marker))
    ensures '\'' !in ReportFormat(marker)
  {
    MarkerShape(marker);
    var opening: Bytes := "; printf '";
    var closing: Bytes := "' \"$?\"";
    assert [';'] + Lead() + ['n'] == opening + LineFeed();
    assert Trail() == Conversion() + LineFeed() + closing;
    hide Lead, Trail, LineFeed, Conversion, IsMarker;
    var middle := marker + [':'];
    Regroup(command, [';'], Lead(), ['n'], middle, Trail(), ['\r']);
    assert Wire(command, marker, true) == command + ([';'] + Lead() + ['n']) + middle + Trail() + ['\r'];
    RegroupFormat(command, opening, LineFeed(), middle, Conversion(), closing, ['\r']);
  }

  lemma Regroup(a: Bytes, b: Bytes, c: Bytes, d: Bytes, e: Bytes, f: Bytes, g: Bytes)
    ensures a + b + c + d + e + f + g == a + (b + c + d) + e + f + g
  {
  }

  lemma RegroupFormat(a: Bytes, open: Bytes, feed: Bytes, middle: Bytes, conversion: Bytes, close: Bytes, end: Bytes)
    ensures
      a + (open + feed) + middle + (conversion + feed + close) + end ==
      a + open + (feed + middle + conversion + feed) + close + end
  {
  }

  /** So what the shell prints for it, given the command's exit status, is the report that completes the command. */
  lemma ShellReports(marker: Bytes, body: Bytes, status: nat, tail: Bytes)
    requires IsMarker(marker)
    ensures Completion(marker, body, status, tail) == body + Printf(ReportFormat(marker), Decimal(status)) + tail
  {
    MarkerShape(marker);
    hide LineFeed, Conversion, Decimal, IsMarker;
    var digits := Decimal(status);
    var middle := marker + [':'];
    assert ReportFormat(marker) == LineFeed() + (middle + (Conversion() + (LineFeed() + [])));
    PrintfLineFeed(middle + (Conversion() + (LineFeed() + [])), digits);
    PrintfPlain(middle, Conversion() + (LineFeed() + []), digits);
    PrintfConversion(LineFeed() + [], digits);
    PrintfLineFeed([], digits);
    assert Printf([], digits) == [];
    hide Printf;
    assert Printf(ReportFormat(marker), digits) == ['\n'] + (middle + (digits + (['\n'] + [])));
  }

  /** What the board sends after the echo of a command that exits: its output, the report, the prompt. */
  function Completion(marker: Bytes, body: Bytes, status: nat, tail: Bytes): Bytes {
    body + ['\n'] + (marker + [':'] + Decimal(status) + ['\n'] + tail)
  }

  lemma CompletionReports(marker: Bytes, body: Bytes, digits: Bytes, tail: Bytes)
    requires digits != []
    ensures
      var afterBody := marker + [':'] + digits + ['\n'] + tail;
      OccursAt(afterBody, Success(marker), 0) <==> digits[0] == '0'
  {
    var afterBody := marker + [':'] + digits + ['\n'] + tail;
    assert afterBody[..|marker|] == marker && afterBody[|marker|] == ':' && afterBody[|marker| + 1] == digits[0];
    if digits[0] == '0' {
      assert afterBody[..|marker| + 2] == Success(marker);
    } else if OccursAt(afterBody, Success(marker), 0) {
      SuccessHasMarker(afterBody, marker, 0);
    }
  }

  /** A word that neither side contains is not made by joining them with a character it does not contain. */
  lemma NotAcross(left: Bytes, separator: Byte, right: Bytes, word: Bytes)
    requires word != [] && separator !in word
    requires !Contains(left, word) && !Contains(right, word)
    ensures !Contains(left + [separator] + right, word)
  {
    forall i: nat
      ensures !OccursAt(left + [separator] + right, word, i)
    {
      OccursSides(left, separator, right, word, i);
    }
  }

  lemma OccursSides(left: Bytes, separator: Byte, right: Bytes, word: Bytes, i: nat)
    requires word != [] && separator !in word
    ensures OccursAt(left + [separator] + right, word, i) ==> Contains(left, word) || Contains(right, word)
  {
    if OccursAt(left + [separator] + right, word, i) {
      OccursOnOneSide(left, separator, right, word, i);
    }
  }

  lemma NotInDigits(digits: Bytes, marker: Bytes)
    requires marker != [] && marker[0] == '_'
    requires forall k :: 0 <= k < |digits| ==> '0' <= digits[k] <= '9'
    ensures !Contains(digits, marker)
  {
  }

  lemma SuccessIn(marker: Bytes, body: Bytes, digits: Bytes, tail: Bytes, i: nat)
    requires 2 <= |marker| && marker[0] == '_' && IsMarkerText(marker)
    requires digits != [] && forall k :: 0 <= k < |digits| ==> '0' <= digits[k] <= '9'
    requires !Contains(body, marker) && !Contains(tail, marker)
    requires OccursAt(body + ['\n'] + (marker + [':'] + digits + ['\n'] + tail), Success(marker), i)
    ensures digits[0] == '0'
  {
    var afterColon := digits + ['\n'] + tail;
    var afterBody := marker + [':'] + afterColon;
    NotInDigits(digits, marker);
    NotAcross(digits, '\n', tail, marker);
    assert afterBody == marker + [':'] + digits + ['\n'] + tail;
    SuccessHasMarker(body + ['\n'] + afterBody, marker, i);
    OccursOnOneSide(body, '\n', afterBody, marker, i);
    var j := i - |body| - 1;
    OccursOnOneSide(marker, ':', afterColon, marker, j);
    OccursInTail(body + ['\n'], afterBody, Success(marker), 0);
    CompletionReports(marker, body, digits, tail);
  }

  lemma ZeroIsReported(marker: Bytes, body: Bytes, digits: Bytes, tail: Bytes)
    requires digits != [] && digits[0] == '0'
    ensures Contains(body + ['\n'] + (marker + [':'] + digits + ['\n'] + tail), Success(marker))
  {
    var front: Bytes := body + ['\n'];
    var report: Bytes := marker + [':'] + digits + ['\n'] + tail;
    CompletionReports(marker, body, digits, tail);
    hide Success;
    OccursInTail(front, report, Success(marker), 0);
    assert OccursAt(front + report, Success(marker), |front| + 0);
  }

  /** What a finished command leaves behind reports success exactly when its exit status is zero. */
  lemma CompletionMeaning(marker: Bytes, body: Bytes, status: nat, tail: Bytes)
    requires IsMarker(marker) && !Contains(body, marker) && !Contains(tail, marker)
    ensures Contains(Completion(marker, body, status, tail), Success(marker)) <==> status == 0
  {
    MarkerShape(marker);
    DecimalShape(status);
    if status == 0 {
      ZeroIsReported(marker, body, Decimal(status), tail);
    } else if i: nat :| OccursAt(Completion(marker, body, status, tail), Success(marker), i) {
      SuccessIn(marker, body, Decimal(status), tail, i);
    }
  }

  /** A run to completion succeeds exactly when the exit status is zero. */
  lemma CompletionVerdict(
      before: Bytes, command: Bytes, marker: Bytes, body: Bytes, status: nat, tail: Bytes)
    requires IsMarker(marker) && !Contains(before + command, marker)
    requires !Contains(body, marker) && !Contains(tail, marker)
    ensures
      var output := before + Wire(command, marker, true) + Completion(marker, body, status, tail);
      Verdict(output, marker) == if status == 0 then Ok(output) else Err(Error(CommandExitNonzero, "command"))
  {
    hide Wire, IsMarker, Verdict, Completion, Contains;
    CompletionMeaning(marker, body, status, tail);
    VerdictAfterEcho(before, command, marker, Completion(marker, body, status, tail));
  }

  /**
   The three-way report is not what its messages say: once the echo has arrived, a command whose
   completion has not been seen is reported as a nonzero exit, never as a missing marker.
   */
  lemma UnfinishedCommandReportsNonzeroExit(before: Bytes, command: Bytes, marker: Bytes, rest: Bytes)
    requires IsMarker(marker) && !Contains(before + command, marker) && !Contains(rest, marker)
    ensures Verdict(before + Wire(command, marker, true) + rest, marker) == Err(Error(CommandExitNonzero, "command"))
  {
    VerdictAfterEcho(before, command, marker, rest);
    if i: nat :| OccursAt(rest, Success(marker), i) {
      SuccessHasMarker(rest, marker, i);
    }
  }

  /** The missing marker is reported exactly when not even the marker's echo is in the output. */
  lemma MissingMarkerReported(output: Bytes, marker: Bytes)
    ensures Verdict(output, marker) == Err(Error(CommandTimeout, "command")) <==> !Contains(output, marker)
  {
    RFindMeaning(output, marker);
    RFindMeaning(output, Success(marker));
    if i: nat :| OccursAt(output, Success(marker), i) {
      SuccessHasMarker(output, marker, i);
    }
  }
}
