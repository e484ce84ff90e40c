/**
 A server's chat end to end (`server_chat.rs`): what a member reads off its stream, of what was put on
 its queue.  A roster frame may hold any names: `rosters` gives each its own.
 */
module ChatHeard {
  import opened Wire
  import opened Text
  import opened ServerChat
  import ChatWire
  import Messages

  type Names = seq<ChatWire.Named>

  // ---------------------------------------------------------------- from a queue to bytes

  function LineOf(line: Line): ChatWire.ChatMessage { ChatWire.Line(line.from, line.at, line.text) }

  function MessageOf(q: Queued, roster: Names): ChatWire.ChatMessage {
    match q
    case Greeting => ChatWire.Welcome
    case Roster => ChatWire.Names(roster)
    case Spoken(line) => LineOf(line)
  }

  predicate AllPlain(lines: seq<Line>) { forall i :: 0 <= i < |lines| ==> ValidChat(lines[i].text) }

  predicate AllShort(lines: seq<Line>) { forall i :: 0 <= i < |lines| ==> |lines[i].text| < 256 }

  /** What is written for a queue: each message that encodes, in order. */
  function Bodies(queue: seq<Queued>, rosters: seq<Names>): seq<seq<Byte>>
    requires |rosters| == |queue|
  {
    if queue == [] then []
    else
      var n := |queue| - 1;
      var body := ChatWire.Encode(MessageOf(queue[n], rosters[n]));
      Bodies(queue[..n], rosters[..n]) + if body.Some? then [body.value] else []
  }

  // ---------------------------------------------------------------- from bytes to lines

  /** The lines among the messages read. */
  function LinesIn(bodies: seq<seq<Byte>>): seq<ChatWire.ChatMessage> {
    if bodies == [] then []
    else
      var n := |bodies| - 1;
      var m := ChatWire.Decode(bodies[n]);
      LinesIn(bodies[..n]) + if m.Some? && m.value.Line? then [m.value] else []
  }

  /** What a client reads off the stream, if it reads it to the end. */
  function LinesRead(stream: seq<Byte>): Option<seq<ChatWire.ChatMessage>> {
    match ChatWire.ReadAll(stream)
    case None => None
    case Some(bodies) => Some(LinesIn(bodies))
  }

  function AsSaid(lines: seq<Line>): (r: seq<ChatWire.ChatMessage>)
    ensures |r| == |lines|
  {
    if lines == [] then [] else AsSaid(lines[..|lines| - 1]) + [LineOf(lines[|lines| - 1])]
  }

  // ---------------------------------------------------------------- every message fits the stream

  lemma {:induction false} NamesFit(names: Names)
    requires Messages.AllSendable(names)
    ensures |ChatWire.NameEntries(names)| <= 49 * |names|
  {
    hide ValidName;
    if names != [] {
      NameFits(names[0].name);
      NamesFit(names[1..]);
    }
  }

  lemma NameFits(name: Text)
    requires ValidName(name)
    ensures |name| <= MAX_NAME_BYTES
  {
  }

  lemma BodyFits(q: Queued, roster: Names)
    ensures var body := ChatWire.Encode(MessageOf(q, roster));
      body.Some? ==> 0 < |body.value| <= ChatWire.MAX_MESSAGE
  {
    hide Chars;
    if q.Roster? {
      NamesFit(ChatWire.FirstNames(Messages.Kept(roster)));
    }
  }

  lemma {:induction false} BodiesFit(queue: seq<Queued>, rosters: seq<Names>)
    requires |rosters| == |queue|
    ensures forall i :: 0 <= i < |Bodies(queue, rosters)| ==> 0 < |Bodies(queue, rosters)[i]| <= ChatWire.MAX_MESSAGE
  {
    hide ChatWire.Encode;
    if queue != [] {
      var n := |queue| - 1;
      BodiesFit(queue[..n], rosters[..n]);
      BodyFits(queue[n], rosters[n]);
    }
  }

  // ---------------------------------------------------------------- what comes back

  /** Of one message, the line it is, exactly if that is short. */
  lemma OneRead(q: Queued, roster: Names)
    requires q.Spoken? ==> ValidChat(q.line.text)
    ensures var body := ChatWire.Encode(MessageOf(q, roster));
      && body.Some?
      && var m := ChatWire.Decode(body.value);
         if q.Spoken? then m == Some(LineOf(q.line)) <==> |q.line.text| < 256
         else m.Some? ==> !m.value.Line?
  {
    hide ValidChat, ChatWire.TakeNames, ChatWire.NameEntries, ChatWire.TakeStr, ChatWire.TakeLine;
    ChatWire.RoundTrip(MessageOf(q, roster));
    if q.Roster? {
      RosterIsNoLine(roster);
    }
  }

  lemma RosterIsNoLine(roster: Names)
    ensures var body := ChatWire.Encode(ChatWire.Names(roster)).value;
      ChatWire.Decode(body).Some? ==> !ChatWire.Decode(body).value.Line?
  {
    hide ChatWire.TakeNames, ChatWire.NameEntries, ChatWire.TakeStr, ChatWire.TakeLine, Messages.Kept;
    var body := ChatWire.Encode(ChatWire.Names(roster)).value;
    assert body[0] == 0x11;
  }

  /** One message more. */
  lemma {:induction false} BackMore(before: seq<Line>, q: Queued, lines: seq<ChatWire.ChatMessage>,
                                    m: Option<ChatWire.ChatMessage>)
    requires |lines| <= |before| && (lines == AsSaid(before) <==> AllShort(before))
    requires if q.Spoken? then m == Some(LineOf(q.line)) <==> |q.line.text| < 256 else m.Some? ==> !m.value.Line?
    ensures var said := before + if q.Spoken? then [q.line] else [];
      var read := lines + if m.Some? && m.value.Line? then [m.value] else [];
      |read| <= |said| && (read == AsSaid(said) <==> AllShort(said))
  {
    if q.Spoken? {
      var said := before + [q.line];
      assert said[..|said| - 1] == before && AsSaid(said) == AsSaid(before) + [LineOf(q.line)];
      assert AllShort(said) <==> AllShort(before) && |q.line.text| < 256 by {
        assert said[|before|] == q.line && forall i :: 0 <= i < |before| ==> said[i] == before[i];
      }
      if m.Some? && m.value.Line? {
        var read, whole := lines + [m.value], AsSaid(before) + [LineOf(q.line)];
        assert read[..|lines|] == lines && whole[..|before|] == AsSaid(before);
        assert read[|lines|] == m.value && whole[|before|] == LineOf(q.line);
      }
    } else {
      assert before + [] == before && lines + [] == lines;
    }
  }

  lemma {:induction false} LinesMore(bodies: seq<seq<Byte>>, body: seq<Byte>)
    ensures var m := ChatWire.Decode(body);
      LinesIn(bodies + [body]) == LinesIn(bodies) + if m.Some? && m.value.Line? then [m.value] else []
  {
    hide ChatWire.Decode;
    assert (bodies + [body])[..|bodies|] == bodies;
  }

  lemma {:induction false} HeardLast(queue: seq<Queued>)
    requires queue != []
    ensures var n := |queue| - 1;
      Heard(queue) == Heard(queue[..n]) + if queue[n].Spoken? then [queue[n].line] else []
  {
  }

  lemma {:induction false} LinesBack(queue: seq<Queued>, rosters: seq<Names>)
    requires |rosters| == |queue| && AllPlain(Heard(queue))
    ensures var lines := LinesIn(Bodies(queue, rosters));
      |lines| <= |Heard(queue)| && (lines == AsSaid(Heard(queue)) <==> AllShort(Heard(queue)))
  {
    hide ChatWire.Encode, ChatWire.Decode, ValidChat, Heard, LinesIn, AsSaid, AllShort;
    if queue == [] {
      NothingHeard();
    } else {
      var n := |queue| - 1;
      var q, bodies := queue[n], Bodies(queue[..n], rosters[..n]);
      HeardLast(queue);
      PlainBefore(Heard(queue[..n]), q);
      LinesBack(queue[..n], rosters[..n]);
      OneRead(q, rosters[n]);
      var body := ChatWire.Encode(MessageOf(q, rosters[n])).value;
      LinesMore(bodies, body);
      BackMore(Heard(queue[..n]), q, LinesIn(bodies), ChatWire.Decode(body));
    }
  }

  lemma NothingHeard()
    ensures Heard([]) == [] && LinesIn([]) == AsSaid([]) == [] && AllShort([])
  {
  }

  lemma PlainBefore(before: seq<Line>, q: Queued)
    requires AllPlain(before + if q.Spoken? then [q.line] else [])
    ensures AllPlain(before) && (q.Spoken? ==> ValidChat(q.line.text))
  {
    hide ValidChat;
    var said := before + if q.Spoken? then [q.line] else [];
    assert forall i :: 0 <= i < |before| ==> said[i] == before[i];
    assert q.Spoken? ==> said[|before|] == q.line;
  }

  /** The bytes of a queue give back its lines, whole and in order, exactly if each is under 256 bytes. */
  lemma {:induction false} QueueRead(queue: seq<Queued>, rosters: seq<Names>)
    requires |rosters| == |queue| && AllPlain(Heard(queue))
    ensures var read := LinesRead(ChatWire.StreamOf(Bodies(queue, rosters)));
      read.Some? && (read.value == AsSaid(Heard(queue)) <==> AllShort(Heard(queue)))
  {
    hide ChatWire.ReadAll, ChatWire.StreamOf, Bodies, LinesIn, AsSaid, ValidChat;
    BodiesFit(queue, rosters);
    ChatWire.StreamBack(Bodies(queue, rosters));
    LinesBack(queue, rosters);
  }

  // ---------------------------------------------------------------- every run

  lemma SaysPlain(s: State, op: Op)
    requires s.gate.limit.Valid()
    ensures s.Do(op).1.Some? ==> ValidChat(s.Do(op).1.value.text)
  {
    hide ValidChat, ValidName, Gates.Gate.Allow;
  }

  lemma {:induction false} RunPlain(s: State, ops: seq<Op>)
    requires s.gate.limit.Valid()
    ensures AllPlain(ServerChat.Run(s, ops).1)
  {
    hide ValidChat, State.Do;
    if ops != [] {
      RunPlain(s, ops[..|ops| - 1]);
      SaysPlain(ServerChat.Run(s, ops[..|ops| - 1]).0, ops[|ops| - 1]);
    }
  }

  /**
   What a member reads: whatever was done before its Hello and since, its stream reads to the end
   and gives the last HISTORY lines said before it and then every line since, in order, each as it
   was said and by whom, exactly if none of them is of 256 bytes or more.
   */
  lemma {:induction false} MembersRead(enabled: bool, host: Identity, hostName: Text, earlier: seq<Op>, link: LinkId,
                                       name: Text, later: seq<Op>, rosters: seq<Names>)
    requires forall i :: 0 <= i < |later| ==> !Ends(later[i], link)
    requires var (before, said) := ServerChat.Run(Start(enabled, host, hostName), earlier);
      var joined := before.Do(Hello(link, name)).0;
      && joined.gate.limit.Valid() && link in ServerChat.Run(joined, later).0.members
      && |rosters| == |ServerChat.Run(joined, later).0.members[link].queue|
    ensures var (before, said) := ServerChat.Run(Start(enabled, host, hostName), earlier);
      var (after, since) := ServerChat.Run(before.Do(Hello(link, name)).0, later);
      var lines := LastOf(said) + since;
      var read := LinesRead(ChatWire.StreamOf(Bodies(after.members[link].queue, rosters)));
      read.Some? && (read.value == AsSaid(lines) <==> AllShort(lines))
  {
    hide State.Do, Heard, ValidChat, Bodies, LinesRead, AsSaid, AllShort;
    MembersHearAll(enabled, host, hostName, earlier, link, name, later);
    var (before, said) := ServerChat.Run(Start(enabled, host, hostName), earlier);
    var joined := before.Do(Hello(link, name)).0;
    RunPlain(Start(enabled, host, hostName), earlier);
    RunPlain(joined, later);
    var queue := ServerChat.Run(joined, later).0.members[link].queue;
    assert AllPlain(Heard(queue));
    QueueRead(queue, rosters);
  }
}
