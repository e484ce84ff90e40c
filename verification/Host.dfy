/**
 A room's host (`lan_session.rs`, `lan.rs`): it seats the identities its links prove, routes
 packets between members, and tells every member who is in the room.

 Links, timers and the messages' transport are the environment's: each event below is one turn of
 the host's loop, and what it sends on a link is logged in order.
 */
module Host {
  import opened Wire
  import opened Ipv4
  import opened Subnet
  import opened Members
  import opened Text
  import opened Messages
  import opened RoomView
  import Gates

  /** A link the mesh established.  Identifiers are never reused. */
  type LinkId = nat

  // ---------------------------------------------------------------- routing

  datatype DropReason = NotIpv4 | TooLarge | UnknownSender | SpoofedSource | UnknownDestination | ToSelf

  datatype Route = Broadcast | Unicast(to: Identity) | Drop(reason: DropReason)

  function RouteOf(table: Table, sender: Identity, p: seq<Byte>): Route
    requires table.subnet.Valid()
  {
    if |p| > MTU then Drop(TooLarge)
    else
      match (Endpoints(p), AddressOf(table.members, sender))
      case (None, _) => Drop(NotIpv4)
      case (_, None) => Drop(UnknownSender)
      case (Some((src, dst)), Some(own)) =>
        if src != own then Drop(SpoofedSource)
        else if table.subnet.IsBroadcast(dst) then Broadcast
        else
          match IdentityAt(table.members, dst)
          case None => Drop(UnknownDestination)
          case Some(id) => if id == sender then Drop(ToSelf) else Unicast(id)
  }

  // ---------------------------------------------------------------- what is sent

  type Log = map<LinkId, seq<LanMessage>>

  function SentOn(log: Log, link: LinkId): seq<LanMessage> { if link in log then log[link] else [] }

  /** `m` sent once on each of `links`. */
  function Cast(log: Log, links: set<LinkId>, m: LanMessage): (r: Log)
    ensures forall l :: SentOn(r, l) == SentOn(log, l) + if l in links then [m] else []
  {
    map l | l in log.Keys + links :: SentOn(log, l) + if l in links then [m] else []
  }

  /** The names given by those in the table, in its order. */
  function NamesOf(members: seq<Member>, names: map<Identity, Text>): seq<Named> {
    if members == [] then []
    else
      var m := members[0];
      (if m.identity in names then [Named(m.identity, names[m.identity])] else []) + NamesOf(members[1..], names)
  }

  function LinksOf(seated: map<Identity, LinkId>): set<LinkId> { set i | i in seated :: seated[i] }

  // ---------------------------------------------------------------- the parts of the invariant

  /** Each seat's link is open and proved that identity.  So no two identities share a link. */
  predicate SeatsProved(links: map<LinkId, Option<Identity>>, seated: map<Identity, LinkId>) {
    forall i :: i in seated ==> seated[i] in links && links[seated[i]] == Some(i)
  }

  /** The seated, and the host, are exactly those in the table. */
  predicate SeatsInTable(own: Identity, members: seq<Member>, seated: map<Identity, LinkId>) {
    && own !in seated && InTable(members, own)
    && (forall i :: i in seated ==> InTable(members, i))
    && (forall m :: m in members ==> m.identity == own || m.identity in seated)
  }

  predicate InTable(members: seq<Member>, identity: Identity) { AddressOf(members, identity).Some? }

  /** Names belong only to the host or the seated, and the gates remember nobody else. */
  predicate OnlySeated(own: Identity, seated: map<Identity, LinkId>,
                       named: set<Identity>, gated: set<Identity>, chatting: set<Identity>)
  {
    named <= seated.Keys + {own} && gated <= seated.Keys + {own} && chatting <= seated.Keys
  }

  /** A view is of a table: the table itself, and the viewer's address in it. */
  predicate Shows(view: View, table: Table) {
    && view.address == AddressOf(table.members, view.own) && view.subnet == table.subnet
    && view.members == table.members && view.epoch == table.epoch
  }

  // ---------------------------------------------------------------- the state and its steps

  datatype Event =
    | LinkEstablished(link: LinkId)
    | PeerIdentified(link: LinkId, identity: Identity)
    | IdentifyTimeout(link: LinkId)
    | LinkClosed(link: LinkId)
    | LinkData(link: LinkId, bytes: seq<Byte>, now: nat)
    | FromAdapter(packet: seq<Byte>, now: nat)
    | SetName(name: Text)
    | SayLine(text: Text)
    | Refresh
    | Clock(time: nat)

  datatype State = State(own: Identity, allowlist: seq<Identity>, table: Table,
                         gate: Gates.Gate, chatGate: Gates.Gate,
                         links: map<LinkId, Option<Identity>>, seated: map<Identity, LinkId>,
                         names: map<Identity, Text>, view: View, lines: Lines,
                         log: Log, delivered: seq<seq<Byte>>)
  {
    function Seats(): set<LinkId> { LinksOf(seated) }

    predicate SeatedOn(identity: Identity, link: LinkId) { identity in seated && seated[identity] == link }

    function Snapshot(): LanMessage { Members(table.epoch, table.subnet, table.members) }

    function NamesNow(): LanMessage { Names(NamesOf(table.members, names)) }

    function SentTo(link: LinkId, m: LanMessage): State { this.(log := Cast(log, {link}, m)) }

    function SentToAll(m: LanMessage): State { this.(log := Cast(log, Seats(), m)) }

    function NamesPublished(): State {
      SentToAll(NamesNow()).(view := view.(names := NamesOf(table.members, names)))
    }

    function Published(): State {
      SentToAll(Snapshot()).(view := view.Applied(table.epoch, table.subnet, table.members)).NamesPublished()
    }

    function Greeted(link: LinkId): State { SentTo(link, Snapshot()).SentTo(link, NamesNow()) }

    function Seat(link: LinkId, identity: Identity): State
      requires table.subnet.Valid()
    {
      if link !in links then this
      else
        var s := this.(links := links[link := Some(identity)]);
        if identity == own || (allowlist != [] && identity !in allowlist) then s.SentTo(link, Turned(NotAllowed))
        else
          match table.Admitted(identity)
          case (after, Seated(_)) =>
            var seating := s.(table := after, seated := seated[identity := link]);
            if after.epoch != table.epoch then seating.Published() else seating.Greeted(link)
          case (after, Refused(r)) => s.(table := after).SentTo(link, Turned(r))
    }

    function Closed(link: LinkId): State {
      if link !in links then this
      else
        var s := this.(links := links - {link});
        match links[link]
        case None => s
        case Some(identity) =>
          if !SeatedOn(identity, link) then s
          else
            var left := s.(seated := seated - {identity}, names := names - {identity},
                           gate := gate.Forget(identity), chatGate := chatGate.Forget(identity),
                           table := table.Removed(identity));
            if |left.table.members| != |table.members| then left.Published() else left
    }

    /** Send one packet on; `from` is the link it came by, or none for the host's own. */
    function Forward(sender: Identity, from: Option<LinkId>, p: seq<Byte>, now: nat): State
      requires table.subnet.Valid() && gate.limit.Valid()
    {
      match RouteOf(table, sender, p)
      case Drop(_) => this
      case Broadcast =>
        var (g, allowed) := gate.Allow(sender, p, now);
        var s := this.(gate := g);
        if !allowed then s
        else s.(delivered := if sender == own then delivered else delivered + [p],
                log := Cast(log, Seats() - (if from.Some? then {from.value} else {}), Packet(p)))
      case Unicast(to) =>
        if to == own then this.(delivered := delivered + [p])
        else if to in seated then SentTo(seated[to], Packet(p))
        else this
    }

    function Say(from: Identity, text: Text): State {
      SentToAll(ChatFrom(from, text)).(lines := lines.Pushed(from, text))
    }

    function Data(link: LinkId, bytes: seq<Byte>, now: nat): State
      requires table.subnet.Valid() && gate.limit.Valid() && chatGate.limit.Valid()
    {
      if link !in links || links[link].None? || !SeatedOn(links[link].value, link) then this
      else Told(link, links[link].value, Decode(bytes), now)
    }

    function Told(link: LinkId, identity: Identity, message: Decoded<LanMessage>, now: nat): State
      requires table.subnet.Valid() && gate.limit.Valid() && chatGate.limit.Valid()
    {
      match message
      case Ok(Hello(_)) => Greeted(link)
      case Ok(Packet(p)) => Forward(identity, Some(link), p, now)
      case Ok(Name(name)) =>
        if identity in names && names[identity] == name then this
        else this.(names := names[identity := name]).NamesPublished()
      case Ok(Chat(text)) =>
        var (g, allowed) := chatGate.Allow(identity, [], now);
        var s := this.(chatGate := g);
        if allowed then s.Say(identity, text) else s
      case _ => this
    }

    function OnEvent(e: Event): State
      requires table.subnet.Valid() && gate.limit.Valid() && chatGate.limit.Valid()
    {
      match e
      case LinkEstablished(link) => this.(links := links[link := None])
      case PeerIdentified(link, identity) => Seat(link, identity)
      case IdentifyTimeout(link) =>
        if link in links && links[link].None? then this.(links := links - {link}) else this
      case LinkClosed(link) => Closed(link)
      case LinkData(link, bytes, now) => Data(link, bytes, now)
      case FromAdapter(packet, now) => Forward(own, None, packet, now)
      case SetName(name) => this.(names := names[own := name]).NamesPublished()
      case SayLine(text) => Say(own, text)
      case Refresh => Published()
      case Clock(time) => this.(lines := lines.(clock := time))
    }

    // -------------------------------------------------------------- the invariant

    ghost predicate Valid() {
      && table.Valid() && table.subnet.Valid() && gate.limit == Gates.BROADCASTS && chatGate.limit == Gates.CHAT
      && SeatsProved(links, seated) && SeatsInTable(own, table.members, seated)
      && OnlySeated(own, seated, names.Keys, gate.members.Keys, chatGate.members.Keys)
      && view.own == own && Shows(view, table) && view.names == NamesOf(table.members, names)
    }

    /** What the mesh promises: link identifiers are new, and a link proves one identity only. */
    predicate Admissible(e: Event) {
      && (e.LinkEstablished? ==> e.link !in links)
      && (e.PeerIdentified? && e.link in links && links[e.link].Some? ==> links[e.link].value == e.identity)
    }
  }

  // ---------------------------------------------------------------- the class

  class Host {
    const own: Identity
    const allowlist: seq<Identity>
    const table: MemberTable
    const gate: Gates.BroadcastGate
    const chatGate: Gates.ChatGate
    const view: RoomView
    const chat: ChatLog
    var links: map<LinkId, Option<Identity>>
    var seated: map<Identity, LinkId>
    var names: map<Identity, Text>
    var log: Log
    var delivered: seq<seq<Byte>>

    function Model(): State
      reads this, table, gate, chatGate, view, chat
    {
      State(own, allowlist, table.Model(), gate.Model(), chatGate.Model(), links, seated, names,
            view.Model(), chat.Model(), log, delivered)
    }

    /** Open a room: an empty table seats its host. */
    constructor (own: Identity, allowlist: seq<Identity>, subnet: RoomSubnet, capacity: nat, name: Option<Text>)
      requires subnet.Valid()
      ensures Model() == Opening(own, allowlist, subnet, capacity, name)
      ensures fresh(table) && fresh(gate) && fresh(chatGate) && fresh(view) && fresh(chat)
    {
      this.own, this.allowlist := own, allowlist;
      var t := new MemberTable(subnet, capacity);
      var v := new RoomView(own, subnet);
      var admitted := t.Admit(own);
      v.chat := true;
      if name.Some? {
        v.names := [Named(own, name.value)];
      }
      v.Apply(t.epoch, t.subnet, t.members);
      table, view := t, v;
      gate := new Gates.BroadcastGate();
      chatGate := new Gates.ChatGate();
      chat := new ChatLog();
      links, seated, log, delivered := map[], map[], map[], [];
      names := if name.Some? then map[own := name.value] else map[];
    }

    method Send(link: LinkId, m: LanMessage)
      modifies this`log
      ensures log == Cast(old(log), {link}, m)
    {
      log := Cast(log, {link}, m);
    }

    /** To every seat but `except`, one by one. */
    method SendAll(m: LanMessage, except: Option<LinkId>)
      requires SeatsProved(links, seated)
      modifies this`log
      ensures log == Cast(old(log), Model().Seats() - (if except.Some? then {except.value} else {}), m)
    {
      assert Unshared(seated);
      var left := seated.Keys;
      ghost var before, skip := log, if except.Some? then {except.value} else {};
      ghost var done: set<LinkId> := {};
      CastNone(log, m);
      assert {} - skip == {};
      while left != {}
        invariant left <= seated.Keys && Done(seated, left, done)
        invariant log == Cast(before, done - skip, m)
      {
        var i :| i in left;
        OneMore(seated, left, done, i);
        CastMore(before, done, skip, seated[i], m);
        if Some(seated[i]) != except {
          Send(seated[i], m);
        }
        done := done + {seated[i]};
        left := left - {i};
      }
      AllDone(seated, done);
    }

    method PublishNames()
      requires SeatsProved(links, seated)
      modifies this`log, view
      ensures Model() == old(Model()).NamesPublished()
    {
      var given := ReadNames();
      SendAll(Names(given), None);
      view.names := given;
      NoneLess(Model().Seats());
    }

    method ReadNames() returns (given: seq<Named>)
      ensures given == NamesOf(table.members, names)
    {
      given := [];
      for k := 0 to |table.members|
        invariant given + NamesOf(table.members[k..], names) == NamesOf(table.members, names)
      {
        var m := table.members[k];
        assert table.members[k..][0] == m && table.members[k..][1..] == table.members[k + 1..];
        if m.identity in names {
          given := given + [Named(m.identity, names[m.identity])];
        }
      }
      assert table.members[|table.members|..] == [];
    }

    method PublishMembers()
      requires SeatsProved(links, seated)
      modifies this`log, view
      ensures Model() == old(Model()).Published()
    {
      SendAll(Members(table.epoch, table.subnet, table.members), None);
      NoneLess(Model().Seats());
      view.Apply(table.epoch, table.subnet, table.members);
      PublishNames();
    }

    method Greet(link: LinkId)
      modifies this`log
      ensures Model() == old(Model()).Greeted(link)
    {
      Send(link, Members(table.epoch, table.subnet, table.members));
      var given := ReadNames();
      Send(link, Names(given));
    }

    method SeatPeer(link: LinkId, identity: Identity)
      requires Model().Valid() && Model().Admissible(PeerIdentified(link, identity))
      modifies this, table, view
      ensures Model() == old(Model()).Seat(link, identity)
    {
      hide SeatsInTable, OnlySeated, Shows, NamesOf, Table.Valid, AddressOf;
      if link !in links {
        return;
      }
      links := links[link := Some(identity)];
      if identity == own || (allowlist != [] && identity !in allowlist) {
        Send(link, Turned(NotAllowed));
        return;
      }
      var before := table.epoch;
      var admission := table.Admit(identity);
      match admission {
        case Seated(_) =>
          seated := seated[identity := link];
          if table.epoch != before {
            PublishMembers();
          } else {
            Greet(link);
          }
        case Refused(r) => Send(link, Turned(r));
      }
    }

    method Close(link: LinkId)
      requires SeatsProved(links, seated)
      modifies this, table, gate, chatGate, view
      ensures Model() == old(Model()).Closed(link)
    {
      hide NamesOf, AddressOf, Table.Removed;
      if link !in links {
        return;
      }
      var proved := links[link];
      links := links - {link};
      if proved.Some? && proved.value in seated && seated[proved.value] == link {
        var identity := proved.value;
        seated := seated - {identity};
        gate.Forget(identity);
        chatGate.Forget(identity);
        names := names - {identity};
        var changed := table.Remove(identity);
        if changed {
          PublishMembers();
        }
      }
    }

    method Forward(sender: Identity, from: Option<LinkId>, p: seq<Byte>, now: nat)
      requires Model().table.subnet.Valid() && SeatsProved(links, seated)
      modifies this, gate
      ensures Model() == old(Model()).Forward(sender, from, p, now)
    {
      hide RouteOf, Gates.Gate.Allow, NamesOf, Cast, RoomSubnet.Valid, Table.Valid, State.Valid;
      var route := RouteOf(table.Model(), sender, p);
      match route {
        case Drop(_) =>
        case Broadcast =>
          var allowed := gate.Allow(sender, p, now);
          if allowed {
            if sender != own {
              delivered := delivered + [p];
            }
            SendAll(Packet(p), from);
          }
        case Unicast(to) =>
          if to == own {
            delivered := delivered + [p];
          } else if to in seated {
            Send(seated[to], Packet(p));
          }
      }
    }

    method Say(from: Identity, text: Text)
      requires SeatsProved(links, seated)
      modifies this`log, chat
      ensures Model() == old(Model()).Say(from, text)
    {
      SendAll(ChatFrom(from, text), None);
      NoneLess(Model().Seats());
      chat.Push(from, text);
    }

    method Data(link: LinkId, bytes: seq<Byte>, now: nat)
      requires Model().table.subnet.Valid() && SeatsProved(links, seated)
      modifies this, gate, chatGate, view, chat
      ensures Model() == old(Model()).Data(link, bytes, now)
    {
      if link !in links || links[link].None? {
        return;
      }
      var identity := links[link].value;
      if identity !in seated || seated[identity] != link {
        return;
      }
      Told(link, identity, Decode(bytes), now);
    }

    method Told(link: LinkId, identity: Identity, message: Decoded<LanMessage>, now: nat)
      requires Model().table.subnet.Valid() && SeatsProved(links, seated)
      modifies this, gate, chatGate, view, chat
      ensures Model() == old(Model()).Told(link, identity, message, now)
    {
      hide NamesOf, Cast, AddressOf, RoomSubnet.Valid, Gates.Gate.Allow, State.Forward;
      match message {
        case Ok(Hello(_)) => Greet(link);
        case Ok(Packet(p)) => Forward(identity, Some(link), p, now);
        case Ok(Name(name)) =>
          if identity !in names || names[identity] != name {
            names := names[identity := name];
            PublishNames();
          }
        case Ok(Chat(text)) =>
          var allowed := chatGate.Allow(identity, now);
          if allowed {
            Say(identity, text);
          }
        case _ =>
      }
    }

    /** One turn of the host's loop. */
    method OnEvent(e: Event)
      requires Model().Valid() && Model().Admissible(e)
      modifies this, table, gate, chatGate, view, chat
      ensures Model() == old(Model()).OnEvent(e)
    {
      hide State.Seat, State.Closed, State.Data, State.Forward, State.Published, State.Say, SeatsInTable,
           OnlySeated, Shows, NamesOf;
      match e {
        case LinkEstablished(link) => links := links[link := None];
        case PeerIdentified(link, identity) => SeatPeer(link, identity);
        case IdentifyTimeout(link) =>
          if link in links && links[link].None? {
            links := links - {link};
          }
        case LinkClosed(link) => Close(link);
        case LinkData(link, bytes, now) => Data(link, bytes, now);
        case FromAdapter(packet, now) => Forward(own, None, packet, now);
        case SetName(name) =>
          names := names[own := name];
          PublishNames();
        case SayLine(text) => Say(own, text);
        case Refresh => PublishMembers();
        case Clock(time) => chat.clock := time;
      }
    }
  }

  lemma CastNone(log: Log, m: LanMessage)
    ensures Cast(log, {}, m) == log
  {
    SameLog(Cast(log, {}, m), log);
  }

  lemma CastMore(log: Log, done: set<LinkId>, skip: set<LinkId>, l: LinkId, m: LanMessage)
    requires l !in done
    ensures (if l in skip then Cast(log, done - skip, m) else Cast(Cast(log, done - skip, m), {l}, m))
         == Cast(log, done + {l} - skip, m)
  {
    if l in skip {
      assert done + {l} - skip == done - skip;
    } else {
      assert done + {l} - skip == done - skip + {l};
      CastOneMore(log, done - skip, l, m);
    }
  }

  lemma CastOneMore(log: Log, done: set<LinkId>, l: LinkId, m: LanMessage)
    requires l !in done
    ensures Cast(Cast(log, done, m), {l}, m) == Cast(log, done + {l}, m)
  {
    var a, b := Cast(Cast(log, done, m), {l}, m), Cast(log, done + {l}, m);
    assert a.Keys == b.Keys;
    forall k ensures SentOn(a, k) == SentOn(b, k) {}
    SameLog(a, b);
  }

  predicate Unshared(seated: map<Identity, LinkId>) {
    forall i, j :: i in seated && j in seated && seated[i] == seated[j] ==> i == j
  }

  /** `done` holds the seats of everyone not in `left`, and no one else's. */
  predicate Done(seated: map<Identity, LinkId>, left: set<Identity>, done: set<LinkId>) {
    && done <= LinksOf(seated)
    && forall i :: i in seated ==> (i in left <==> seated[i] !in done)
  }

  lemma OneMore(seated: map<Identity, LinkId>, left: set<Identity>, done: set<LinkId>, i: Identity)
    requires Unshared(seated) && left <= seated.Keys && i in left && Done(seated, left, done)
    ensures Done(seated, left - {i}, done + {seated[i]})
  {
  }

  lemma AllDone(seated: map<Identity, LinkId>, done: set<LinkId>)
    requires Done(seated, {}, done)
    ensures done == LinksOf(seated)
  {
  }

  lemma SameLog(a: Log, b: Log)
    requires a.Keys == b.Keys && forall l :: SentOn(a, l) == SentOn(b, l)
    ensures a == b
  {
    forall l | l in a ensures a[l] == b[l] {
      assert SentOn(a, l) == SentOn(b, l);
    }
  }

  lemma NoneLess(s: set<LinkId>)
    ensures s - {} == s
  {
  }

  function Opening(own: Identity, allowlist: seq<Identity>, subnet: RoomSubnet, capacity: nat,
                   name: Option<Text>): State
    requires subnet.Valid()
  {
    var table := NewTable(subnet, capacity).Admitted(own).0;
    var names := if name.Some? then map[own := name.value] else map[];
    var view := NewView(own, subnet).(chat := true, names := if name.Some? then [Named(own, name.value)] else []);
    State(own, allowlist, table, Gates.Gate(Gates.BROADCASTS, map[]), Gates.Gate(Gates.CHAT, map[]), map[], map[],
          names,
          view.Applied(table.epoch, table.subnet, table.members), Lines([], 0, 0), map[], [])
  }
}
