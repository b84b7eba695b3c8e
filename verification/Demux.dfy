/** The console client's output: what the server sends is taken apart into UART bytes and responses. */
module Demux {
  import opened Basics

  /** What the server sends, and what the client shows. */
  datatype Item = Uart(b: Byte) | Response(text: Bytes)

  function Nul(): Byte { '\0' }

  function Tag(): Byte { 'R' }

  function Frame(item: Item): Bytes {
    match item
    case Uart(b) => [b]
    case Response(text) => ['\0', 'R'] + text + ['\0']
  }

  function Encode(items: seq<Item>): Bytes {
    if items == [] then [] else Frame(items[0]) + Encode(items[1..])
  }

  /** Between items, after a NUL, or within a response. */
  datatype Receiver = Between | AfterNul | Within(response: Bytes)

  datatype Reception = Reception(state: Receiver, items: seq<Item>)

  function Take(s: Receiver, byte: Byte): Reception {
    match s
    case Within(response) =>
      if byte == Nul() then Reception(Between, [Response(response)]) else Reception(Within(response + [byte]), [])
    case AfterNul =>
      if byte == Tag() then Reception(Within([]), []) else Reception(Between, [Uart(Nul()), Uart(byte)])
    case Between =>
      if byte == Nul() then Reception(AfterNul, []) else Reception(Between, [Uart(byte)])
  }

  function Taken(s: Receiver, stream: Bytes): Reception {
    if stream == [] then Reception(s, [])
    else
      var before := Taken(s, stream[..|stream| - 1]);
      var last := Take(before.state, stream[|stream| - 1]);
      Reception(last.state, before.items + last.items)
  }

  /** The client's receive thread, with its three variables. */
  class Screen {
    var responseMode: bool
    var pendingNul: bool
    var response: Bytes
    var shown: seq<Item>

    ghost predicate Valid()
      reads this
    {
      && (responseMode ==> !pendingNul)
      && (!responseMode ==> response == [])
    }

    function State(): Receiver
      reads this
    {
      if responseMode then Within(response) else if pendingNul then AfterNul else Between
    }

    constructor ()
      ensures Valid() && State() == Between && shown == []
    {
      responseMode, pendingNul, response, shown := false, false, [], [];
    }

    /** Handles the bytes of one read; how the stream is cut into reads makes no difference (TakenJoin). */
    method Receive(chunk: Bytes)
      requires Valid()
      modifies this
      ensures Valid()
      ensures Reception(State(), shown) == Reception(Taken(old(State()), chunk).state, old(shown) + Taken(old(State()), chunk).items)
    {
      hide Taken;
      ghost var start := State();
      TakenNothing(start);
      assert chunk[..0] == [];
      for i := 0 to |chunk|
        invariant Valid()
        invariant State() == Taken(start, chunk[..i]).state
        invariant shown == old(shown) + Taken(start, chunk[..i]).items
      {
        TakenStep(start, chunk, i);
        var byte := chunk[i];
        if responseMode {
          if byte == Nul() {
            shown := shown + [Response(response)];
            response, responseMode := [], false;
          } else {
            response := response + [byte];
          }
        } else if pendingNul {
          pendingNul := false;
          if byte == Tag() {
            responseMode := true;
          } else {
            shown := shown + [Uart(Nul()), Uart(byte)];
          }
        } else if byte == Nul() {
          pendingNul := true;
        } else {
          shown := shown + [Uart(byte)];
        }
      }
      assert chunk[..|chunk|] == chunk;
    }
  }

  lemma TakenNothing(s: Receiver)
    ensures Taken(s, []) == Reception(s, [])
  {
  }

  lemma TakenStep(s: Receiver, stream: Bytes, i: nat)
    requires i < |stream|
    ensures
      var before := Taken(s, stream[..i]);
      var last := Take(before.state, stream[i]);
      Taken(s, stream[..i + 1]) == Reception(last.state, before.items + last.items)
  {
    assert stream[..i + 1][..i] == stream[..i];
  }

  /** Receiving a stream in one piece or in two is the same. */
  lemma {:induction false} TakenJoin(s: Receiver, a: Bytes, b: Bytes)
    ensures
      var left := Taken(s, a);
      var right := Taken(left.state, b);
      Taken(s, a + b) == Reception(right.state, left.items + right.items)
  {
    if b == [] {
      assert a + b == a;
    } else {
      TakenJoin(s, a, b[..|b| - 1]);
      assert (a + b)[..|a + b| - 1] == a + b[..|b| - 1];
    }
  }

  lemma TakenOne(s: Receiver, byte: Byte)
    ensures Taken(s, [byte]) == Take(s, byte)
  {
    TakenStep(s, [byte], 0);
    assert [byte][..1] == [byte];
  }

  lemma TakenTwo(s: Receiver, a: Byte, b: Byte)
    ensures
      var first := Take(s, a);
      var second := Take(first.state, b);
      Taken(s, [a, b]) == Reception(second.state, first.items + second.items)
  {
    TakenOne(s, a);
    TakenOne(Take(s, a).state, b);
    TakenJoin(s, [a], [b]);
    assert [a] + [b] == [a, b];
  }

  lemma {:induction false} TakenText(response: Bytes, text: Bytes)
    requires Nul() !in text
    ensures Taken(Within(response), text) == Reception(Within(response + text), [])
  {
    if text == [] {
      assert response + text == response;
    } else {
      var front := text[..|text| - 1];
      TakenText(response, front);
      assert response + front + [text[|text| - 1]] == response + text;
    }
  }

  /** A response ends at the first NUL, whatever follows. */
  lemma TakenResponse(text: Bytes)
    requires Nul() !in text
    ensures Taken(Between, [Nul(), Tag()] + text + [Nul()]) == Reception(Between, [Response(text)])
  {
    hide Taken;
    TakenTwo(Between, Nul(), Tag());
    TakenText([], text);
    assert [] + text == text;
    TakenJoin(Between, [Nul(), Tag()], text);
    TakenOne(Within(text), Nul());
    TakenJoin(Between, [Nul(), Tag()] + text, [Nul()]);
  }

  /** Within a response the next item shown is a response. */
  lemma {:induction false} ResponseComesFirst(response: Bytes, stream: Bytes)
    ensures
      var reception := Taken(Within(response), stream);
      if reception.items == [] then reception.state.Within? else reception.items[0].Response?
  {
    if stream != [] {
      ResponseComesFirst(response, stream[..|stream| - 1]);
    }
  }

  /**
   What survives the trip: no response holds a NUL, and every NUL from the UART that opens a pair is
   followed by another UART byte, which is not an R.
   */
  predicate Transparent(items: seq<Item>) {
    if items == [] then true
    else
      match items[0]
      case Response(text) => '\0' !in text && Transparent(items[1..])
      case Uart(b) =>
        if b != '\0' then Transparent(items[1..])
        else |items| > 1 && items[1].Uart? && items[1].b != 'R' && Transparent(items[2..])
  }

  lemma EncodeCons(items: seq<Item>)
    requires items != []
    ensures Encode(items) == Frame(items[0]) + Encode(items[1..])
  {
  }

  lemma JoinAssociates(a: Bytes, b: Bytes, c: Bytes)
    ensures a + (b + c) == a + b + c
  {
  }

  lemma EncodeSplit(items: seq<Item>)
    requires items != []
    ensures Encode(items) == Frame(items[0]) + Encode(items[1..])
    ensures |items| > 1 ==> Encode(items) == Frame(items[0]) + Frame(items[1]) + Encode(items[2..])
  {
    hide Frame, Encode;
    EncodeCons(items);
    if |items| > 1 {
      var rest := items[1..];
      assert rest[0] == items[1] && rest[1..] == items[2..];
      EncodeCons(rest);
      JoinAssociates(Frame(items[0]), Frame(items[1]), Encode(items[2..]));
    }
  }

  lemma EncodeNothing()
    ensures Encode([]) == []
  {
  }

  /** When a beginning comes through as it is, the rest decides. */
  lemma RestDecides(beginning: Bytes, rest: Bytes, items: seq<Item>, k: nat)
    requires k <= |items| && Taken(Between, beginning) == Reception(Between, items[..k])
    ensures Taken(Between, beginning + rest).state == Taken(Between, rest).state
    ensures Taken(Between, beginning + rest).items == items <==> Taken(Between, rest).items == items[k..]
  {
    hide Taken;
    TakenJoin(Between, beginning, rest);
    var shown := Taken(Between, rest).items;
    if items[..k] + shown == items {
      assert shown == (items[..k] + shown)[k..];
    }
    if shown == items[k..] {
      assert items[..k] + shown == items;
    }
  }

  lemma NulOpensResponse(items: seq<Item>)
    requires |items| > 1 && items[0] == Uart(Nul()) && items[1] == Uart(Tag())
    ensures Taken(Between, Encode(items)).items != items
  {
    hide Taken, Encode;
    EncodeSplit(items);
    var rest := Encode(items[2..]);
    assert Frame(items[0]) + Frame(items[1]) == [Nul(), Tag()];
    TakenTwo(Between, Nul(), Tag());
    ResponseComesFirst([], rest);
    TakenJoin(Between, [Nul(), Tag()], rest);
  }

  lemma NulSpoilsResponse(items: seq<Item>)
    requires |items| > 1 && items[0] == Uart(Nul()) && items[1].Response?
    ensures Taken(Between, Encode(items)).items != items
  {
    hide Taken, Encode;
    EncodeSplit(items);
    var rest := [Tag()] + items[1].text + [Nul()] + Encode(items[2..]);
    assert Encode(items) == [Nul(), Nul()] + rest;
    TakenTwo(Between, Nul(), Nul());
    TakenJoin(Between, [Nul(), Nul()], rest);
    assert Taken(Between, Encode(items)).items[1] == Uart(Nul());
  }

  lemma JoinRegroups(a: Bytes, b: Bytes, c: Bytes, d: Bytes, e: Bytes)
    ensures a + (b + c + d) + c + e == (a + b + c) + (d + c + e)
  {
  }

  lemma SplitAt(text: Bytes, i: nat)
    requires i < |text|
    ensures text == text[..i] + [text[i]] + text[i + 1..]
  {
  }

  /** The encoding of a response with a NUL in it begins like that of a shorter response. */
  lemma ResponseCut(items: seq<Item>, text: Bytes, i: nat)
    requires items != [] && items[0] == Response(text)
    requires i < |text| && text[i] == Nul()
    ensures
      Encode(items) == ([Nul(), Tag()] + text[..i] + [Nul()]) + (text[i + 1..] + [Nul()] + Encode(items[1..]))
  {
    EncodeCons(items);
    hide Encode;
    SplitAt(text, i);
    JoinRegroups([Nul(), Tag()], text[..i], [Nul()], text[i + 1..], Encode(items[1..]));
  }

  lemma NulCutsResponse(items: seq<Item>, text: Bytes)
    requires items != [] && items[0] == Response(text) && Nul() in text
    ensures Taken(Between, Encode(items)).items != items
  {
    hide Taken, Encode, Frame;
    var i := FirstNul(text);
    var rest := text[i + 1..] + [Nul()] + Encode(items[1..]);
    ResponseCut(items, text, i);
    TakenResponse(text[..i]);
    TakenJoin(Between, [Nul(), Tag()] + text[..i] + [Nul()], rest);
    assert Taken(Between, Encode(items)).items[0] == Response(text[..i]);
    assert |text[..i]| < |text|;
  }

  function FirstNul(text: Bytes): (i: nat)
    requires Nul() in text
    ensures i < |text| && text[i] == Nul() && Nul() !in text[..i]
  {
    if text[0] == Nul() then 0
    else
      var i := 1 + FirstNul(text[1..]);
      assert text[..i] == [text[0]] + text[1..][..i - 1];
      i
  }

  lemma LoneNul(items: seq<Item>)
    requires |items| == 1 && items[0] == Uart(Nul())
    ensures Taken(Between, Encode(items)).items != items
  {
    hide Taken, Encode;
    EncodeSplit(items);
    EncodeNothing();
    assert items[1..] == [] && Frame(items[0]) + [] == [Nul()];
    TakenOne(Between, Nul());
  }

  /**
   The client shows exactly what the server sent, UART bytes and responses in their order, if and only
   if the items are transparent; then nothing of them is left over in the receiver.
   */
  lemma {:induction false} ClientUnderstandsServer(items: seq<Item>)
    ensures Taken(Between, Encode(items)).items == items <==> Transparent(items)
    ensures Transparent(items) ==> Taken(Between, Encode(items)).state == Between
    decreases |items|
  {
    hide Taken, Encode;
    if items == [] {
      EncodeNothing();
      TakenNothing(Between);
    } else {
      EncodeSplit(items);
      var nul := items[0] == Uart(Nul());
      if items[0].Response? && Nul() in items[0].text {
        NulCutsResponse(items, items[0].text);
      } else if nul && |items| == 1 {
        LoneNul(items);
      } else if nul && items[1].Response? {
        NulSpoilsResponse(items);
      } else if nul && items[1].b == Tag() {
        NulOpensResponse(items);
      } else if nul {
        var b := items[1].b;
        TakenTwo(Between, Nul(), b);
        assert Frame(items[0]) + Frame(items[1]) == [Nul(), b];
        assert items[..2] == [Uart(Nul()), Uart(b)];
        RestDecides([Nul(), b], Encode(items[2..]), items, 2);
        ClientUnderstandsServer(items[2..]);
      } else {
        assert items[..1] == [items[0]];
        FrameTaken(items[0]);
        RestDecides(Frame(items[0]), Encode(items[1..]), items, 1);
        ClientUnderstandsServer(items[1..]);
      }
    }
  }

  lemma FrameTaken(item: Item)
    requires item.Response? ==> Nul() !in item.text
    requires item.Uart? ==> item.b != Nul()
    ensures Taken(Between, Frame(item)) == Reception(Between, [item])
  {
    hide Taken;
    match item
    case Uart(b) => TakenOne(Between, b);
    case Response(text) => TakenResponse(text);
  }

  /** A board that sends no NUL, and responses without one, always come through. */
  lemma {:induction false} NulFreeIsTransparent(items: seq<Item>)
    requires forall i :: 0 <= i < |items| ==> Nul() !in (match items[i] case Uart(b) => [b] case Response(text) => text)
    ensures Transparent(items)
  {
    if items != [] {
      var head := items[0];
      assert Nul() !in (match head case Uart(b) => [b] case Response(text) => text);
      NulFreeIsTransparent(items[1..]);
    }
  }
}
