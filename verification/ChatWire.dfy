/** The messages of a server's chat, on its own byte stream (`server_chat.rs`). */
module ChatWire {
  import opened Wire
  import opened Text
  import Messages

  const MAX_NAMES := 64
  const MAX_MESSAGE := 8192

  type U64 = x: int | 0 <= x < 0x1_0000_0000_0000_0000

  type Named = Messages.Named

  datatype ChatMessage =
    | Hello(name: Text)
    | Say(text: Text)
    | Welcome
    | Names(names: seq<Named>)
    | Line(from: Identity, at: U64, text: Text)
    | Unknown(kind: Byte)

  // ---------------------------------------------------------------- encoding

  /** A string as the source writes one: its length in one byte, whatever it is. */
  function PutStr(s: Text): (r: seq<Byte>)
    ensures |r| == 1 + |s|
  {
    [|s| % 256] + s
  }

  function Bytes64(v: U64): (s: seq<Byte>)
    ensures |s| == 8
  {
    Messages.Bytes32(v / 0x1_0000_0000) + Messages.Bytes32(v % 0x1_0000_0000)
  }

  function Word64(s: seq<Byte>): U64
    requires |s| == 8
  {
    Messages.Word32(s[..4]) * 0x1_0000_0000 + Messages.Word32(s[4..])
  }

  lemma Word64Back(v: U64)
    ensures Word64(Bytes64(v)) == v
  {
    var s := Bytes64(v);
    assert s[..4] == Messages.Bytes32(v / 0x1_0000_0000) && s[4..] == Messages.Bytes32(v % 0x1_0000_0000);
    Word32Back(v / 0x1_0000_0000);
    Word32Back(v % 0x1_0000_0000);
  }

  lemma Word32Back(v: U32)
    ensures Messages.Word32(Messages.Bytes32(v)) == v
  {
  }

  function FirstNames(names: seq<Named>): (r: seq<Named>)
    ensures |r| <= MAX_NAMES && r <= names
  {
    if |names| <= MAX_NAMES then names else names[..MAX_NAMES]
  }

  function NameEntries(names: seq<Named>): seq<Byte> {
    if names == [] then [] else names[0].identity + PutStr(names[0].name) + NameEntries(names[1..])
  }

  function LineBytes(from: Identity, at: U64,
                     text: Text): seq<Byte> { [0x12] + (from + (Bytes64(at) + PutStr(text))) }

  function Encode(m: ChatMessage): (r: Option<seq<Byte>>)
    ensures r.Some? ==> r.value != []
  {
    match m
    case Hello(name) => if ValidName(name) then Some([0x01] + PutStr(name)) else None
    case Say(text) => if ValidChat(text) then Some([0x02] + PutStr(text)) else None
    case Welcome => Some([0x10])
    case Names(names) => var sent := FirstNames(Messages.Kept(names)); Some([0x11] + ([|sent|] + NameEntries(sent)))
    case Line(from, at, text) => if ValidChat(text) then Some(LineBytes(from, at, text)) else None
    case Unknown(_) => None
  }

  // ---------------------------------------------------------------- decoding

  datatype Taken<T> = Taken(value: T, rest: seq<Byte>)

  function TakeStr(b: seq<Byte>): Option<Taken<Text>> {
    if b == [] || |b| < 1 + b[0] as int || !IsUtf8(b[1..1 + b[0] as int]) then None
    else Some(Taken(b[1..1 + b[0] as int], b[1 + b[0] as int..]))
  }

  function TakeNames(b: seq<Byte>, count: nat): Option<seq<Named>>
    decreases count
  {
    if count == 0 then Some([])
    else if |b| < 16 then None
    else
      match TakeStr(b[16..])
      case None => None
      case Some(s) =>
        if !ValidName(s.value) then None else Onto([Messages.Named(b[..16], s.value)], TakeNames(s.rest, count - 1))
  }

  function Onto(names: seq<Named>, later: Option<seq<Named>>): Option<seq<Named>> {
    if later.Some? then Some(names + later.value) else None
  }

  function TakeLine(b: seq<Byte>): Option<ChatMessage> {
    if |b| < 24 then None
    else
      match TakeStr(b[24..])
      case None => None
      case Some(s) => if ValidChat(s.value) then Some(Line(b[..16], Word64(b[16..24]), s.value)) else None
  }

  function Decode(b: seq<Byte>): Option<ChatMessage> {
    if b == [] then None
    else
      var kind, rest := b[0], b[1..];
      if kind == 0x01 then
        (match TakeStr(rest)
         case None => None
         case Some(s) => if ValidName(s.value) then Some(Hello(s.value)) else None)
      else if kind == 0x02 then
        (match TakeStr(rest)
         case None => None
         case Some(s) => if ValidChat(s.value) then Some(Say(s.value)) else None)
      else if kind == 0x10 then Some(Welcome)
      else if kind == 0x11 then
        (if rest == [] then None
         else match TakeNames(rest[1..], rest[0]) case None => None case Some(names) => Some(Names(names)))
      else if kind == 0x12 then TakeLine(rest)
      else Some(Unknown(kind))
  }

  // ---------------------------------------------------------------- the cursor

  /** What is left to read.  A failed read leaves it where the source leaves it: unread. */
  class Cursor {
    var left: seq<Byte>

    constructor (b: seq<Byte>)
      ensures left == b
    {
      left := b;
    }

    method Take(n: nat) returns (r: Option<seq<Byte>>)
      modifies this
      ensures if |old(left)| < n then r.None? && left == old(left)
              else r == Some(old(left)[..n]) && left == old(left)[n..]
    {
      if |left| < n {
        return None;
      }
      r := Some(left[..n]);
      left := left[n..];
    }

    method TakeByte() returns (r: Option<Byte>)
      modifies this
      ensures if old(left) == [] then r.None? && left == [] else r == Some(old(left)[0]) && left == old(left)[1..]
    {
      var b := Take(1);
      r := if b.Some? then Some(b.value[0]) else None;
    }

    method TakeString() returns (r: Option<Text>)
      modifies this
      ensures match TakeStr(old(left))
        case None => r.None?
        case Some(s) => r == Some(s.value) && left == s.rest
    {
      hide IsUtf8;
      var n := TakeByte();
      if n.None? {
        return None;
      }
      var s := Take(n.value);
      if s.None? {
        return None;
      }
      SliceOfTail(old(left), 1, 0, n.value);
      assert s.value == old(left)[1..][0..n.value];
      r := if IsUtf8(s.value) then Some(s.value) else None;
    }
  }

  lemma OntoOnto(a: seq<Named>, b: seq<Named>, later: Option<seq<Named>>)
    ensures Onto([], later) == later && Onto(a, Some([])) == Some(a)
    ensures Onto(a, Onto(b, later)) == Onto(a + b, later)
  {
    assert a + [] == a;
    if later.Some? {
      assert [] + later.value == later.value;
      assert a + (b + later.value) == (a + b) + later.value;
    }
  }

  method ReadNames(c: Cursor, count: nat) returns (r: Option<seq<Named>>)
    modifies c
    ensures r == TakeNames(old(c.left), count)
  {
    hide IsUtf8, PlainText, TakeStr;
    var names: seq<Named> := [];
    OntoOnto([], [], TakeNames(c.left, count));
    var i := 0;
    while i < count
      invariant i <= count
      invariant TakeNames(old(c.left), count) == Onto(names, TakeNames(c.left, count - i))
    {
      ghost var before := c.left;
      var id := c.Take(16);
      if id.None? {
        return None;
      }
      var name := c.TakeString();
      if name.None? || !ValidName(name.value) {
        return None;
      }
      OntoOnto(names, [Messages.Named(id.value, name.value)], TakeNames(c.left, count - i - 1));
      names := names + [Messages.Named(id.value, name.value)];
      i := i + 1;
    }
    OntoOnto(names, [], Some([]));
    r := Some(names);
  }

  method DecodeMessage(b: seq<Byte>) returns (r: Option<ChatMessage>)
    ensures r == Decode(b)
  {
    hide IsUtf8, PlainText, TakeNames;
    var c := new Cursor(b);
    var kind := c.TakeByte();
    if kind.None? {
      return None;
    }
    if kind.value == 0x01 {
      var name := c.TakeString();
      r := if name.Some? && ValidName(name.value) then Some(Hello(name.value)) else None;
    } else if kind.value == 0x02 {
      var text := c.TakeString();
      r := if text.Some? && ValidChat(text.value) then Some(Say(text.value)) else None;
    } else if kind.value == 0x10 {
      r := Some(Welcome);
    } else if kind.value == 0x11 {
      var n := c.TakeByte();
      if n.None? {
        return None;
      }
      var names := ReadNames(c, n.value);
      r := if names.Some? then Some(Names(names.value)) else None;
    } else if kind.value == 0x12 {
      r := ReadLine(c);
    } else {
      r := Some(Unknown(kind.value));
    }
  }

  method ReadLine(c: Cursor) returns (r: Option<ChatMessage>)
    modifies c
    ensures r == TakeLine(old(c.left))
  {
    hide IsUtf8, PlainText, TakeStr;
    var from := c.Take(16);
    if from.None? {
      return None;
    }
    var at := c.Take(8);
    if at.None? {
      return None;
    }
    SliceOfTail(old(c.left), 16, 0, 8);
    assert at.value == old(c.left)[16..][0..8];
    var text := c.TakeString();
    r := if text.Some? && ValidChat(text.value) then Some(Line(from.value, Word64(at.value), text.value)) else None;
  }

  // ---------------------------------------------------------------- round trips

  lemma TakeStrBack(s: Text, rest: seq<Byte>)
    requires |s| < 256 && IsUtf8(s)
    ensures TakeStr(PutStr(s) + rest) == Some(Taken(s, rest))
  {
    hide IsUtf8;
    var b := PutStr(s) + rest;
    assert b[1..1 + |s|] == s && b[1 + |s|..] == rest;
  }

  /** A string of 256 bytes or more comes back, if at all, as something else. */
  lemma TakeStrShort(s: Text)
    requires |s| >= 256
    ensures TakeStr(PutStr(s)).Some? ==> |TakeStr(PutStr(s)).value.value| < |s|
  {
    hide IsUtf8;
  }

  lemma PlainIsUtf8(s: Text, max: nat)
    requires PlainText(s, max)
    ensures IsUtf8(s) && s != [] && |s| <= max
  {
  }

  lemma {:induction false} NamesBack(names: seq<Named>)
    requires Messages.AllSendable(names)
    ensures TakeNames(NameEntries(names), |names|) == Some(names)
  {
    hide PlainText, TakeStr, IsUtf8;
    if names != [] {
      var n, rest := names[0], NameEntries(names[1..]);
      var b := NameEntries(names);
      assert b[..16] == n.identity && b[16..] == PutStr(n.name) + rest;
      PlainIsUtf8(n.name, MAX_NAME_BYTES);
      TakeStrBack(n.name, rest);
      NamesBack(names[1..]);
      assert [n] + names[1..] == names;
    }
  }

  lemma LineBack(from: Identity, at: U64, text: Text)
    requires ValidChat(text)
    ensures Decode(LineBytes(from, at, text)) == Some(Line(from, at, text)) <==> |text| < 256
  {
    hide PlainText, TakeStr, IsUtf8, TakeNames, Word64, Bytes64;
    var rest := from + (Bytes64(at) + PutStr(text));
    assert LineBytes(from, at, text)[1..] == rest;
    assert rest[..16] == from && rest[16..24] == Bytes64(at) && rest[24..] == PutStr(text);
    Word64Back(at);
    PlainIsUtf8(text, MAX_CHAT_BYTES);
    assert PutStr(text) + [] == PutStr(text);
    if |text| < 256 {
      TakeStrBack(text, []);
    } else {
      TakeStrShort(text);
    }
  }

  lemma SayBack(text: Text)
    requires ValidChat(text)
    ensures Decode([0x02] + PutStr(text)) == Some(Say(text)) <==> |text| < 256
  {
    hide PlainText, TakeStr, IsUtf8, TakeNames, TakeLine;
    assert ([0x02] + PutStr(text))[1..] == PutStr(text);
    PlainIsUtf8(text, MAX_CHAT_BYTES);
    assert PutStr(text) + [] == PutStr(text);
    if |text| < 256 {
      TakeStrBack(text, []);
    } else {
      TakeStrShort(text);
    }
  }

  lemma HelloBack(name: Text)
    requires ValidName(name)
    ensures Decode([0x01] + PutStr(name)) == Some(Hello(name))
  {
    hide PlainText, TakeStr, IsUtf8, TakeNames, TakeLine;
    assert ([0x01] + PutStr(name))[1..] == PutStr(name);
    PlainIsUtf8(name, MAX_NAME_BYTES);
    assert PutStr(name) + [] == PutStr(name);
    TakeStrBack(name, []);
  }

  lemma {:induction false} NamesMessageBack(names: seq<Named>)
    requires |names| <= MAX_NAMES && Messages.AllSendable(names)
    ensures Decode([0x11] + ([|names|] + NameEntries(names))) == Some(Names(names))
  {
    hide PlainText, TakeStr, IsUtf8, TakeNames, TakeLine;
    NamesBack(names);
    var rest := [|names|] + NameEntries(names);
    assert ([0x11] + rest)[1..] == rest && rest[1..] == NameEntries(names);
  }

  /** The names that are sent are those asked for exactly when all are valid and there are at most MAX_NAMES. */
  lemma {:induction false} SentNames(names: seq<Named>)
    ensures FirstNames(Messages.Kept(names)) == names <==> |names| <= MAX_NAMES && Messages.AllSendable(names)
  {
    hide ValidName;
    Messages.KeptAll(names);
  }

  /** What the source's limits allow to be sent, and what of it survives: all but long lines and overlong rosters. */
  predicate Survives(m: ChatMessage) {
    match m
    case Say(text) => |text| < 256
    case Line(_, _, text) => |text| < 256
    case Names(names) => |names| <= MAX_NAMES && Messages.AllSendable(names)
    case _ => true
  }

  /**
   A message that encodes decodes to itself exactly if its text is under 256 bytes, though lines
   of up to 280 are let through (MAX_CHAT_BYTES), and its roster is whole.
   */
  lemma {:induction false} RoundTrip(m: ChatMessage)
    requires Encode(m).Some?
    ensures Decode(Encode(m).value) == Some(m) <==> Survives(m)
  {
    hide PlainText, TakeStr, IsUtf8, TakeNames, TakeLine, NameEntries;
    match m
    case Hello(name) => HelloBack(name);
    case Say(text) => SayBack(text);
    case Line(from, at, text) => LineBack(from, at, text);
    case Welcome => assert [0x10 as Byte][1..] == [];
    case Names(names) =>
      NamesMessageBack(FirstNames(Messages.Kept(names)));
      SentNames(names);
  }

  /** Such a line: 256 letters, plain and short enough for the cap, do not arrive. */
  lemma LongLineLost() returns (m: ChatMessage)
    ensures m.Line? && Encode(m).Some? && Decode(Encode(m).value) != Some(m)
  {
    var text: Text := seq(256, _ => 0x61);
    LettersAreText(text);
    m := Line(seq(16, _ => 0), 0, text);
    RoundTrip(m);
  }

  lemma {:induction false} LettersAreText(text: Text)
    requires text != [] && |text| <= MAX_CHAT_BYTES && forall i :: 0 <= i < |text| ==> text[i] == 0x61
    ensures ValidChat(text)
  {
    LetterChars(text);
    var cs := Chars(text).value;
    assert cs[0] in cs && cs[|cs| - 1] in cs;
  }

  lemma {:induction false} LetterChars(text: Text)
    requires forall i :: 0 <= i < |text| ==> text[i] == 0x61
    ensures Chars(text).Some? && |Chars(text).value| == |text| && forall c :: c in Chars(text).value ==> c == 0x61
  {
    if text != [] {
      LetterChars(text[1..]);
      assert Width(text[0]) == 1 && text[1..1] == [] && First(text) == Some(0x61);
      assert Chars(text) == Some([0x61] + Chars(text[1..]).value);
    }
  }

  // ---------------------------------------------------------------- the stream

  /** A message with its length before it. */
  function Framed(body: seq<Byte>): seq<Byte> { Bytes16(|body| % 0x1_0000) + body }

  function StreamOf(bodies: seq<seq<Byte>>): seq<Byte> {
    if bodies == [] then [] else Framed(bodies[0]) + StreamOf(bodies[1..])
  }

  /** Reading the stream to its end: None if a length is zero, too long, or the last message is cut short. */
  function ReadAll(s: seq<Byte>): Option<seq<seq<Byte>>>
    decreases |s|
  {
    if |s| < 2 then Some([])
    else
      var n := Word(s, 0);
      if n == 0 || n > MAX_MESSAGE || |s| < 2 + n then None
      else
        match ReadAll(s[2 + n..])
        case None => None
        case Some(later) => Some([s[2..2 + n]] + later)
  }

  /** The stream gives back the messages written to it, whole and in order. */
  lemma {:induction false} StreamBack(bodies: seq<seq<Byte>>)
    requires forall i :: 0 <= i < |bodies| ==> 0 < |bodies[i]| <= MAX_MESSAGE
    ensures ReadAll(StreamOf(bodies)) == Some(bodies)
  {
    if bodies != [] {
      var b, rest := bodies[0], StreamOf(bodies[1..]);
      var s := StreamOf(bodies);
      assert s == Bytes16(|b|) + b + rest;
      assert Word(s, 0) == |b| && s[2..2 + |b|] == b && s[2 + |b|..] == rest;
      StreamBack(bodies[1..]);
      assert [b] + bodies[1..] == bodies;
    }
  }
}
