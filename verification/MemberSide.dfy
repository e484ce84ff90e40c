/** A member's side of a room (`lan_session.rs`): one link to the host, and a copy of its table. */
module MemberSide {
  import opened Wire
  import opened Ipv4
  import opened Subnet
  import opened Members
  import opened Text
  import opened Messages
  import opened RoomView
  import Host

  type LinkId = Host.LinkId

  const PROTOCOL_VERSION := 1

  datatype Event =
    | Up(link: LinkId)
    | LinkClosed(link: LinkId)
    | LinkData(link: LinkId, bytes: seq<Byte>)
    | FromAdapter(packet: seq<Byte>)
    | SetName(name: Text)
    | SayLine(text: Text)
    | HelloTick
    | Clock(time: nat)

  datatype State = State(link: Option<LinkId>, view: View, name: Option<Text>, lines: Lines,
                         sent: seq<(LinkId, LanMessage)>, delivered: seq<seq<Byte>>)
  {
    function Send(m: LanMessage): State {
      if link.Some? then this.(sent := sent + [(link.value, m)]) else this
    }

    function SendName(): State {
      if name.Some? && view.address.Some? then Send(Name(name.value)) else this
    }

    /** A member takes packets for its own address or for all, and no others. */
    function Received(p: seq<Byte>): State
      requires view.subnet.Valid()
    {
      match Endpoints(p)
      case None => this
      case Some((_, dst)) =>
        if Some(dst) == view.address || view.subnet.IsBroadcast(dst) then this.(delivered := delivered + [p]) else this
    }

    /** A packet of this machine's is sent if this member may originate it. */
    function Sent(p: seq<Byte>): State {
      match Endpoints(p)
      case None => this
      case Some((src, _)) => if view.address == Some(src) then Send(Packet(p)) else this
    }

    function TableTaken(epoch: U32, subnet: RoomSubnet, members: seq<Member>): State {
      var s := this.(view := view.Applied(epoch, subnet, members));
      if view.address.None? && s.view.address.Some? then s.SendName() else s
    }

    function NamesTaken(names: seq<Named>): State {
      var s := this.(view := view.(chat := true, names := names));
      if name.Some? && s.view.address.Some? && s.view.NameOf(view.own) != name then s.SendName() else s
    }

    function Told(message: Decoded<LanMessage>): State
      requires view.subnet.Valid()
    {
      match message
      case Ok(Members(epoch, subnet, members)) => TableTaken(epoch, subnet, members)
      case Ok(Names(names)) => NamesTaken(names)
      case Ok(ChatFrom(from, text)) => this.(lines := lines.Pushed(from, text))
      case Ok(Turned(reason)) => this.(view := view.(refused := Some(reason)))
      case Ok(Packet(p)) => Received(p)
      case _ => this
    }

    function OnEvent(e: Event): State
      requires view.subnet.Valid()
    {
      match e
      case Up(l) => this.(link := Some(l)).Send(Hello(PROTOCOL_VERSION))
      case LinkClosed(l) =>
        if link == Some(l) then this.(link := None, view := view.(address := None, chat := false)) else this
      case LinkData(l, bytes) => if link == Some(l) then Told(Decode(bytes)) else this
      case FromAdapter(p) => if link.Some? then Sent(p) else this
      case SetName(n) => this.(name := Some(n)).SendName()
      case SayLine(text) => Send(Chat(text))
      case HelloTick => if view.address.None? then Send(Hello(PROTOCOL_VERSION)) else this
      case Clock(time) => this.(lines := lines.(clock := time))
    }
  }

  class MemberSide {
    var link: Option<LinkId>
    const view: RoomView
    var name: Option<Text>
    const chat: ChatLog
    var sent: seq<(LinkId, LanMessage)>
    var delivered: seq<seq<Byte>>

    function Model(): State
      reads this, view, chat
    {
      State(link, view.Model(), name, chat.Model(), sent, delivered)
    }

    constructor (own: Identity, subnet: RoomSubnet, name: Option<Text>)
      ensures Model() == State(None, NewView(own, subnet), name, Lines([], 0, 0), [], [])
      ensures fresh(view) && fresh(chat)
    {
      link, this.name, sent, delivered := None, name, [], [];
      view := new RoomView(own, subnet);
      chat := new ChatLog();
    }

    method Send(m: LanMessage)
      modifies this`sent
      ensures Model() == old(Model()).Send(m)
    {
      if link.Some? {
        sent := sent + [(link.value, m)];
      }
    }

    method SendName()
      modifies this`sent
      ensures Model() == old(Model()).SendName()
    {
      if link.Some? && name.Some? && view.address.Some? {
        Send(Name(name.value));
      }
    }

    method Receive(p: seq<Byte>)
      requires view.subnet.Valid()
      modifies this`delivered
      ensures Model() == old(Model()).Received(p)
    {
      var ends := Endpoints(p);
      if ends.None? {
        return;
      }
      if Some(ends.value.1) == view.address || view.subnet.IsBroadcast(ends.value.1) {
        delivered := delivered + [p];
      }
    }

    method SendPacket(p: seq<Byte>)
      modifies this`sent
      ensures Model() == if old(link).Some? then old(Model()).Sent(p) else old(Model())
    {
      if link.None? {
        return;
      }
      var ends := Endpoints(p);
      if ends.Some? && view.address.Some? && ends.value.0 == view.address.value {
        Send(Packet(p));
      }
    }

    method Told(message: Decoded<LanMessage>)
      requires view.subnet.Valid()
      modifies this, view, chat
      ensures Model() == old(Model()).Told(message)
    {
      match message {
        case Ok(Members(epoch, subnet, members)) =>
          var was := view.address;
          view.Apply(epoch, subnet, members);
          if was.None? && view.address.Some? {
            SendName();
          }
        case Ok(Names(names)) =>
          view.chat := true;
          view.names := names;
          if name.Some? && view.address.Some? && NameIn(names, view.own) != name {
            SendName();
          }
        case Ok(ChatFrom(from, text)) => chat.Push(from, text);
        case Ok(Turned(reason)) => view.refused := Some(reason);
        case Ok(Packet(p)) => Receive(p);
        case _ =>
      }
    }

    /** One turn of the member's loop. */
    method OnEvent(e: Event)
      requires view.subnet.Valid()
      modifies this, view, chat
      ensures Model() == old(Model()).OnEvent(e)
    {
      match e {
        case Up(l) =>
          link := Some(l);
          Send(Hello(PROTOCOL_VERSION));
        case LinkClosed(l) =>
          if link == Some(l) {
            link := None;
            view.address := None;
            view.chat := false;
          }
        case LinkData(l, bytes) =>
          if link == Some(l) {
            Told(Decode(bytes));
          }
        case FromAdapter(p) => SendPacket(p);
        case SetName(n) =>
          name := Some(n);
          SendName();
        case SayLine(text) => Send(Chat(text));
        case HelloTick =>
          if view.address.None? {
            Send(Hello(PROTOCOL_VERSION));
          }
        case Clock(time) => chat.clock := time;
      }
    }
  }

  /** A seated member only ever originates packets from its own address, and only takes ones for it. */
  lemma {:induction false} OnlyItsOwn(s: State, e: Event)
    requires s.view.subnet.Valid()
    ensures var after := s.OnEvent(e);
      && (forall k :: |s.sent| <= k < |after.sent| && after.sent[k].1.Packet? ==>
            var p := after.sent[k].1.packet; Endpoints(p).Some? && s.view.address == Some(Endpoints(p).value.0))
      && (forall k :: |s.delivered| <= k < |after.delivered| ==>
            var p := after.delivered[k];
            && Endpoints(p).Some?
            && (s.view.address == Some(Endpoints(p).value.1) || s.view.subnet.IsBroadcast(Endpoints(p).value.1)))
  {
    hide RoomSubnet.Valid, RoomSubnet.IsBroadcast, Decode, AddressOf, NameIn;
  }

  /** A seated member whose name the host's list does not give says it again: the list is its receipt. */
  lemma {:induction false} NameRepeats(s: State, names: seq<Named>)
    ensures var after := s.NamesTaken(names);
      after.sent == if s.link.Some? && s.name.Some? && s.view.address.Some? && NameIn(names, s.view.own) != s.name
                    then s.sent + [(s.link.value, Name(s.name.value))] else s.sent
  {
  }

  // ---------------------------------------------------------------- what a member says and learns

  /** The messages a member puts on its link because of itself: each asks for one thing. */
  function Words(s: State, e: Event): seq<LanMessage> {
    match e
    case Up(_) => [Hello(1)]
    case HelloTick => if s.view.address.None? then [Hello(1)] else []
    case SetName(name) => if s.view.address.Some? then [Name(name)] else []
    case SayLine(text) => [Chat(text)]
    case FromAdapter(p) =>
      if Endpoints(p).Some? && s.view.address == Some(Endpoints(p).value.0) then [Packet(p)] else []
    case _ => []
  }

  /**
   A member says Hello on a new link, and again until it is seated; its name when that is set, its
   lines, and its own packets.  Without a link it says nothing.
   */
  lemma Speaks(s: State, e: Event)
    requires s.view.subnet.Valid() && !e.LinkData?
    ensures var after, link := s.OnEvent(e), if e.Up? then Some(e.link) else s.link;
      && (link.None? ==> after.sent == s.sent)
      && (link.Some? ==>
            if Words(s, e) == [] then after.sent == s.sent else after.sent == s.sent + [(link.value, Words(s, e)[0])])
      && after.delivered == s.delivered && after.view.names == s.view.names && after.view.members == s.view.members
      && after.link == (if e.Up? then Some(e.link)
                        else if s.link.Some? && e == LinkClosed(s.link.value) then None else s.link)
      && after.view.address == (if s.link.Some? && e == LinkClosed(s.link.value) then None else s.view.address)
      && after.name == (if e.SetName? then Some(e.name) else s.name)
      && after.lines == (if e.Clock? then s.lines.(clock := e.time) else s.lines)
  {
    hide RoomSubnet.Valid;
  }

  /**
   What its host tells it: a table seats it, a packet is taken, a line is kept, a refusal and the
   names are shown.  It answers with its name when first seated, or when the names lack it.
   What comes by any other link is not heard.
   */
  lemma {:induction false} Learns(s: State, link: LinkId, bytes: seq<Byte>)
    requires s.view.subnet.Valid() && s.link == Some(link)
    ensures var after := s.OnEvent(LinkData(link, bytes));
      match Decode(bytes)
      case Ok(Members(epoch, subnet, members)) =>
        && after.view == s.view.Applied(epoch, subnet, members)
        && after.sent == s.sent + (if s.view.address.None? && after.view.address.Some? && s.name.Some?
                                   then [(link, Name(s.name.value))] else [])
        && after == s.(view := after.view, sent := after.sent)
      case Ok(Names(names)) =>
        && after.view == s.view.(chat := true, names := names)
        && after.sent == s.sent + (if s.view.address.Some? && s.name.Some? && NameIn(names, s.view.own) != s.name
                                   then [(link, Name(s.name.value))] else [])
        && after == s.(view := after.view, sent := after.sent)
      case Ok(Packet(p)) =>
        after == if Endpoints(p).Some? && (s.view.address == Some(Endpoints(p).value.1)
                                           || s.view.subnet.IsBroadcast(Endpoints(p).value.1))
                 then s.(delivered := s.delivered + [p]) else s
      case Ok(ChatFrom(from, text)) => after == s.(lines := s.lines.Pushed(from, text))
      case Ok(Turned(reason)) => after == s.(view := s.view.(refused := Some(reason)))
      case _ => after == s
    ensures forall other :: other != link ==> s.OnEvent(LinkData(other, bytes)) == s
  {
    hide RoomSubnet.Valid, RoomSubnet.IsBroadcast, Decode, View.Applied, NameIn;
  }
}
