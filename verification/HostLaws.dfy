/**
 What a host guarantees over every run: who is seated is who is in the table and nobody else, a
 reconnect changes nothing for anyone, and what it forwards is honest and reaches exactly whom it
 should.
 */
module HostLaws {
  import opened Wire
  import opened Ipv4
  import opened Subnet
  import opened Members
  import opened Text
  import opened Messages
  import opened RoomView
  import opened Host
  import Gates

  // ---------------------------------------------------------------- the invariant

  lemma OpeningValid(own: Identity, allowlist: seq<Identity>, subnet: RoomSubnet, capacity: nat, name: Option<Text>)
    requires subnet.Valid()
    ensures Opening(own, allowlist, subnet, capacity, name).Valid()
  {
    var empty := NewTable(subnet, capacity);
    AdmitMeets(empty, own);
    var s := Opening(own, allowlist, subnet, capacity, name);
    assert s.table.members == [Member(own, s.table.members[0].address)];
  }

  /** A room opens with its host alone in it, at its first free choice, chat to be had, and nobody told anything yet. */
  lemma {:induction false} OpeningIs(own: Identity, allowlist: seq<Identity>, subnet: RoomSubnet, capacity: nat,
                                     name: Option<Text>)
    requires subnet.Valid()
    ensures var s := Opening(own, allowlist, subnet, capacity, name);
      && |s.table.members| == 1 && s.table.members[0].identity == own
      && FirstChoice(NewTable(subnet, capacity), own, s.table.members[0].address) && s.table.epoch == 1
      && s.view.chat && s.view.refused.None? && s.view.address == Some(s.table.members[0].address)
      && s.view.names == (if name.Some? then [Named(own, name.value)] else [])
      && s.names.Keys == (if name.Some? then {own} else {}) && (name.Some? ==> s.names[own] == name.value)
      && s.links == map[] && s.seated == map[] && s.log == map[] && s.delivered == []
  {
    hide Table.Admitted, FirstChoice;
    AdmitMeets(NewTable(subnet, capacity), own);
    SeatedNext(NewTable(subnet, capacity), own);
  }

  /** Everything but what is published. */
  ghost predicate Sound(s: State) {
    && s.table.Valid() && s.table.subnet.Valid() && s.gate.limit == Gates.BROADCASTS && s.chatGate.limit == Gates.CHAT
    && SeatsProved(s.links, s.seated) && SeatsInTable(s.own, s.table.members, s.seated)
    && OnlySeated(s.own, s.seated, s.names.Keys, s.gate.members.Keys, s.chatGate.members.Keys)
    && s.view.own == s.own
  }

  lemma PublishedValid(s: State)
    requires Sound(s) && s.view.Takes(s.table.epoch)
    ensures s.Published().Valid()
  {
    hide Table.Valid, RoomSubnet.Valid, SeatsProved, SeatsInTable, OnlySeated, AddressOf, NamesOf;
  }

  lemma {:induction false} SeatingKeeps(own: Identity, seated: map<Identity, LinkId>, members: seq<Member>,
                                        after: seq<Member>, link: LinkId, identity: Identity)
    requires SeatsInTable(own, members, seated) && identity != own && InTable(after, identity)
    requires forall m :: m in after <==> m in members || m == Member(identity, AddressOf(after, identity).value)
    ensures SeatsInTable(own, after, seated[identity := link])
  {
    forall i | InTable(members, i) ensures InTable(after, i) {
      assert Member(i, AddressOf(members, i).value) in after;
    }
  }

  lemma ProvingKeeps(links: map<LinkId, Option<Identity>>, seated: map<Identity, LinkId>, link: LinkId,
                     identity: Identity)
    requires SeatsProved(links, seated) && link in links && (links[link].Some? ==> links[link].value == identity)
    ensures SeatsProved(links[link := Some(identity)], seated)
    ensures SeatsProved(links[link := Some(identity)], seated[identity := link])
  {
  }

  lemma LeavingKeeps(own: Identity, links: map<LinkId, Option<Identity>>, seated: map<Identity, LinkId>,
                     members: seq<Member>, after: seq<Member>, identity: Identity)
    requires SeatsProved(links, seated) && SeatsInTable(own, members, seated) && identity in seated
    requires forall m :: m in after <==> m in members && m.identity != identity
    ensures SeatsProved(links - {seated[identity]}, seated - {identity})
    ensures SeatsInTable(own, after, seated - {identity})
  {
    forall i | InTable(members, i) && i != identity ensures InTable(after, i) {
      assert Member(i, AddressOf(members, i).value) in after;
    }
  }

  lemma {:induction false} AdmittedMembers(t: Table, identity: Identity)
    requires t.Valid() && t.Admitted(identity).1.Seated?
    ensures var after := t.Admitted(identity).0.members;
      InTable(after, identity)
      && forall m :: m in after <==> m in t.members || m == Member(identity, AddressOf(after, identity).value)
  {
    AdmitMeets(t, identity);
  }

  lemma {:induction false} SeatedSound(s: State, link: LinkId, identity: Identity)
    requires s.Valid() && s.Admissible(PeerIdentified(link, identity)) && link in s.links
    requires identity != s.own && s.table.Admitted(identity).1.Seated?
    ensures var after := s.table.Admitted(identity).0;
      Sound(s.(links := s.links[link := Some(identity)], table := after, seated := s.seated[identity := link]))
  {
    hide Table.Valid, Table.Admitted, RoomSubnet.Valid, AddressOf, NamesOf, InTable, SeatsProved, SeatsInTable;
    AdmitMeets(s.table, identity);
    AdmittedMembers(s.table, identity);
    ProvingKeeps(s.links, s.seated, link, identity);
    SeatingKeeps(s.own, s.seated, s.table.members, s.table.Admitted(identity).0.members, link, identity);
  }

  /** Whom a host seats: not itself, and only the allowed. */
  predicate Seatable(s: State, identity: Identity) {
    identity != s.own && (s.allowlist == [] || identity in s.allowlist)
  }

  lemma {:induction false} SeatedValid(s: State, link: LinkId, identity: Identity)
    requires s.Valid() && s.Admissible(PeerIdentified(link, identity)) && link in s.links
    requires Seatable(s, identity) && s.table.Admitted(identity).1.Seated?
    ensures s.Seat(link, identity).Valid()
  {
    hide Table.Valid, Table.Admitted, RoomSubnet.Valid, AddressOf, NamesOf, SeatsProved, SeatsInTable, OnlySeated,
         State.Published, State.Greeted, Ahead;
    AdmitMeets(s.table, identity);
    var after := s.table.Admitted(identity).0;
    var seating := s.(links := s.links[link := Some(identity)], table := after, seated := s.seated[identity := link]);
    SeatedSound(s, link, identity);
    NextIsAhead(s.table.epoch);
    if after.epoch != s.table.epoch {
      assert s.Seat(link, identity) == seating.Published();
      PublishedValid(seating);
    } else {
      assert after == s.table && s.Seat(link, identity) == seating.Greeted(link);
      GreetedTouches(seating, link);
    }
  }

  lemma {:induction false} SeatValid(s: State, link: LinkId, identity: Identity)
    requires s.Valid() && s.Admissible(PeerIdentified(link, identity))
    ensures s.Seat(link, identity).Valid()
  {
    hide Table.Valid, Table.Admitted, RoomSubnet.Valid, AddressOf, NamesOf, SeatsProved, SeatsInTable, OnlySeated,
         State.Published, State.Greeted;
    if link in s.links {
      ProvingKeeps(s.links, s.seated, link, identity);
      AdmitMeets(s.table, identity);
      if Seatable(s, identity) && s.table.Admitted(identity).1.Seated? {
        SeatedValid(s, link, identity);
      }
    }
  }

  lemma {:induction false} CloseValid(s: State, link: LinkId)
    requires s.Valid()
    ensures s.Closed(link).Valid()
  {
    hide Table.Valid, Table.Removed, RoomSubnet.Valid, AddressOf, NamesOf, InTable, SeatsInTable, State.Published,
         LinksOf, Cast;
    if link in s.links && s.links[link].Some? && s.SeatedOn(s.links[link].value, link) {
      var identity := s.links[link].value;
      RemoveMeets(s.table, identity);
      LeavingKeeps(s.own, s.links, s.seated, s.table.members, s.table.Removed(identity).members, identity);
      SeatedIsIn(s, identity);
      PublishedValid(s.(links := s.links - {link}, seated := s.seated - {identity}, names := s.names - {identity},
                        gate := s.gate.Forget(identity), chatGate := s.chatGate.Forget(identity),
                        table := s.table.Removed(identity)));
    }
  }

  lemma {:induction false} SeatedIsIn(s: State, identity: Identity)
    requires s.Valid() && identity in s.seated
    ensures AddressOf(s.table.members, identity).Some?
  {
    hide Table.Valid, RoomSubnet.Valid, AddressOf;
  }

  /** Forwarding touches only the gate and what is sent and delivered. */
  lemma ForwardTouches(s: State, sender: Identity, from: Option<LinkId>, p: seq<Byte>, now: nat)
    requires s.table.subnet.Valid() && s.gate.limit.Valid()
    ensures var after := s.Forward(sender, from, p, now);
      && after == s.(gate := after.gate, log := after.log, delivered := after.delivered)
      && after.gate in {s.gate, s.gate.Allow(sender, p, now).0}
  {
    hide RouteOf, Gates.Gate.Allow, RoomSubnet.Valid;
  }

  lemma {:induction false} ForwardValid(s: State, sender: Identity, from: Option<LinkId>, p: seq<Byte>, now: nat)
    requires s.Valid() && (sender == s.own || sender in s.seated)
    ensures s.Forward(sender, from, p, now).Valid()
  {
    hide Table.Valid, RoomSubnet.Valid, AddressOf, NamesOf, SeatsProved, SeatsInTable, State.Forward,
         Gates.Gate.Allow;
    ForwardTouches(s, sender, from, p, now);
    Gates.AllowKeeps(s.gate, sender, p, now);
  }

  lemma {:induction false} ToldValid(s: State, link: LinkId, identity: Identity, m: Decoded<LanMessage>, now: nat)
    requires s.Valid() && s.SeatedOn(identity, link)
    ensures s.Told(link, identity, m, now).Valid()
  {
    hide Table.Valid, RoomSubnet.Valid, AddressOf, NamesOf, SeatsProved, SeatsInTable, State.Forward,
         Gates.Gate.Allow;
    match m
    case Ok(Packet(p)) => ForwardValid(s, identity, Some(link), p, now);
    case Ok(Chat(text)) => Gates.AllowKeeps(s.chatGate, identity, [], now);
    case _ =>
  }

  /**
   The seating invariant: whatever happens, the seated and the host are exactly those in the
   table, each seat's link is open and proved that identity, no two share a link, names belong
   only to the seated and the host, the gates remember nobody else, and the host's view is its table.
   */
  lemma {:induction false} StepValid(s: State, e: Event)
    requires s.Valid() && s.Admissible(e)
    ensures s.OnEvent(e).Valid()
  {
    hide Table.Valid, Table.Admitted, Table.Removed, RoomSubnet.Valid, AddressOf, NamesOf, Decode;
    match e
    case PeerIdentified(link, identity) => SeatValid(s, link, identity);
    case LinkClosed(link) => CloseValid(s, link);
    case LinkData(link, bytes, now) =>
      if link in s.links && s.links[link].Some? && s.SeatedOn(s.links[link].value, link) {
        ToldValid(s, link, s.links[link].value, Decode(bytes), now);
      }
    case FromAdapter(packet, now) => ForwardValid(s, s.own, None, packet, now);
    case Refresh => PublishedValid(s);
    case _ =>
  }

  predicate AllAdmissible(s: State, es: seq<Event>)
    requires s.table.subnet.Valid() && s.gate.limit.Valid() && s.chatGate.limit.Valid()
    decreases |es|
  {
    es != [] ==>
      && s.Admissible(es[0])
      && var after := s.OnEvent(es[0]);
         && after.table.subnet.Valid() && after.gate.limit.Valid() && after.chatGate.limit.Valid()
         && AllAdmissible(after, es[1..])
  }

  ghost function Run(s: State, es: seq<Event>): State
    requires s.Valid() && AllAdmissible(s, es)
    decreases |es|
  {
    if es == [] then s else StepValid(s, es[0]); Run(s.OnEvent(es[0]), es[1..])
  }

  lemma {:induction false} RunValid(s: State, es: seq<Event>)
    requires s.Valid() && AllAdmissible(s, es)
    ensures Run(s, es).Valid()
    decreases |es|
  {
    hide Table.Valid, Table.Admitted, Table.Removed, RoomSubnet.Valid, AddressOf, NamesOf, Decode;
    if es != [] {
      StepValid(s, es[0]);
      RunValid(s.OnEvent(es[0]), es[1..]);
    }
  }

  // ---------------------------------------------------------------- reconnecting

  /** Links a host may hold at once for one identity: only the newest is its seat. */
  lemma OneSeatEach(s: State, i: Identity, j: Identity)
    requires s.Valid() && i in s.seated && j in s.seated && s.seated[i] == s.seated[j]
    ensures i == j
  {
  }

  lemma GreetedLog(s: State, link: LinkId, l: LinkId)
    ensures SentOn(s.Greeted(link).log, l) == SentOn(s.log, l) + if l == link then [s.Snapshot(), s.NamesNow()] else []
  {
    hide NamesOf;
    assert SentOn(s.log, l) + [s.Snapshot()] + [s.NamesNow()] == SentOn(s.log, l) + [s.Snapshot(), s.NamesNow()];
  }

  lemma PublishedLog(s: State, l: LinkId)
    ensures SentOn(s.Published().log, l)
         == SentOn(s.log, l) + if l in s.Seats() then [s.Snapshot(), s.NamesNow()] else []
  {
    hide NamesOf, AddressOf;
    assert SentOn(s.log, l) + [s.Snapshot()] + [s.NamesNow()] == SentOn(s.log, l) + [s.Snapshot(), s.NamesNow()];
  }

  /** A seated member's new link takes over its seat: same address, same table, and nobody else is told. */
  lemma {:induction false} Reconnects(s: State, link: LinkId, identity: Identity)
    requires s.Valid() && link in s.links && s.links[link].None? && identity in s.seated
    requires s.allowlist == [] || identity in s.allowlist
    ensures var after := s.Seat(link, identity);
      && after == s.(links := s.links[link := Some(identity)], seated := s.seated[identity := link], log := after.log)
      && forall l :: SentOn(after.log, l) == SentOn(s.log, l) + if l == link then [s.Snapshot(), s.NamesNow()] else []
  {
    hide Table.Valid, Table.Admitted, RoomSubnet.Valid, AddressOf, NamesOf, State.Greeted, State.Published,
         SeatsProved;
    SeatedIsIn(s, identity);
    AdmitMeets(s.table, identity);
    var seating := s.(links := s.links[link := Some(identity)], seated := s.seated[identity := link]);
    assert s.Seat(link, identity) == seating.Greeted(link);
    GreetedTouches(seating, link);
    forall l ensures SentOn(seating.Greeted(link).log, l)
                  == SentOn(s.log, l) + if l == link then [s.Snapshot(), s.NamesNow()] else []
    {
      GreetedLog(seating, link, l);
    }
  }

  lemma GreetedTouches(s: State, link: LinkId)
    ensures s.Greeted(link) == s.(log := s.Greeted(link).log)
  {
  }

  /** The old link closing later unseats nobody and tells nobody. */
  lemma OldLinkClosing(s: State, link: LinkId)
    requires s.Valid() && link in s.links && (s.links[link].Some? ==> !s.SeatedOn(s.links[link].value, link))
    ensures s.Closed(link) == s.(links := s.links - {link})
  {
  }

  /** Only a member's own seat closing takes it out of the room, and then everyone left is told. */
  lemma {:induction false} Leaves(s: State, link: LinkId, identity: Identity)
    requires s.Valid() && s.SeatedOn(identity, link)
    ensures var after := s.Closed(link);
      && after.seated == s.seated - {identity} && after.table == s.table.Removed(identity)
      && AddressOf(after.table.members, identity).None?
      && (forall m :: m in after.table.members <==> m in s.table.members && m.identity != identity)
      && (forall l :: l in after.Seats() ==>
            SentOn(after.log, l) == SentOn(s.log, l) + [after.Snapshot(), after.NamesNow()])
  {
    hide Table.Valid, Table.Removed, RoomSubnet.Valid, AddressOf, NamesOf, State.Published, SeatsInTable;
    SeatedIsIn(s, identity);
    RemoveMeets(s.table, identity);
    var left := s.(links := s.links - {link}, seated := s.seated - {identity}, names := s.names - {identity},
                   gate := s.gate.Forget(identity), chatGate := s.chatGate.Forget(identity),
                   table := s.table.Removed(identity));
    assert s.Closed(link) == left.Published();
    PublishedTouches(left);
    forall l | l in left.Seats()
      ensures SentOn(left.Published().log, l) == SentOn(s.log, l) + [left.Snapshot(), left.NamesNow()]
    {
      PublishedLog(left, l);
    }
  }

  lemma PublishedTouches(s: State)
    ensures s.Published() == s.(log := s.Published().log, view := s.Published().view)
  {
  }

  predicate MayHaveSeat(s: State, identity: Identity) {
    Seatable(s, identity) && (identity in s.seated || |s.table.members| < s.table.capacity)
  }

  /** Whom a host seats: the allowed, while there is room or they have an address already. */
  lemma {:induction false} SeatedWhen(s: State, link: LinkId, identity: Identity)
    requires s.Valid() && link in s.links && MayHaveSeat(s, identity)
    ensures s.Seat(link, identity).SeatedOn(identity, link)
  {
    hide Table.Valid, Table.Admitted, RoomSubnet.Valid, NamesOf, SeatsProved, OnlySeated, Shows, State.Published,
         State.Greeted;
    AdmitMeets(s.table, identity);
    SeatsMatchTable(s, identity);
    var after := s.table.Admitted(identity).0;
    var seating := s.(links := s.links[link := Some(identity)], table := after, seated := s.seated[identity := link]);
    PublishedTouches(seating);
    GreetedTouches(seating, link);
  }

  /** Anyone else is told why not, and nothing else changes. */
  lemma {:induction false} RefusedWhen(s: State, link: LinkId, identity: Identity)
    requires s.Valid() && link in s.links && !MayHaveSeat(s, identity)
    ensures s.Seat(link, identity)
         == s.(links := s.links[link := Some(identity)],
               log := Cast(s.log, {link}, Turned(if Seatable(s, identity) then Full else NotAllowed)))
  {
    hide Table.Valid, RoomSubnet.Valid, AddressOf, State.Seat, SeatsProved, SeatsInTable, OnlySeated, Shows, NamesOf;
    if Seatable(s, identity) {
      AdmitMeets(s.table, identity);
      SeatsMatchTable(s, identity);
      assert s.table.Admitted(identity) == (s.table, Refused(Full));
    }
    TurnedAway(s, link, identity);
  }

  lemma TurnedAway(s: State, link: LinkId, identity: Identity)
    requires s.table.subnet.Valid() && link in s.links
    requires Seatable(s, identity) ==> s.table.Admitted(identity) == (s.table, Refused(Full))
    ensures s.Seat(link, identity)
         == s.(links := s.links[link := Some(identity)],
               log := Cast(s.log, {link}, Turned(if Seatable(s, identity) then Full else NotAllowed)))
  {
    hide Table.Admitted, RoomSubnet.Valid, State.Published, State.Greeted, Cast;
  }

  lemma {:induction false} SeatsMatchTable(s: State, identity: Identity)
    requires s.Valid() && identity != s.own
    ensures identity in s.seated <==> AddressOf(s.table.members, identity).Some?
  {
    hide Table.Valid, RoomSubnet.Valid;
  }

  /** The names sent out are exactly those given by who is in the table. */
  lemma {:induction false} NamesAreMembers(members: seq<Member>, names: map<Identity, Text>, n: Named)
    ensures var given := n.identity in names && names[n.identity] == n.name;
      n in NamesOf(members, names) <==> InTable(members, n.identity) && given
  {
    if members != [] {
      NamesAreMembers(members[1..], names, n);
      assert members == [members[0]] + members[1..];
    }
  }

  // ---------------------------------------------------------------- fan-out

  /**
   Where a packet goes: to everyone exactly if its sender sent it to a broadcast from its own
   address, to one other member exactly if that is whose address it names.
   */
  lemma RoutesTo(t: Table, sender: Identity, p: seq<Byte>, to: Identity)
    requires t.Valid()
    ensures var own := |p| <= MTU && Endpoints(p).Some? && Member(sender, Endpoints(p).value.0) in t.members;
      && (RouteOf(t, sender, p) == Broadcast <==> own && t.subnet.IsBroadcast(Endpoints(p).value.1))
      && (RouteOf(t, sender, p) == Unicast(to) <==>
            own && to != sender && Member(to, Endpoints(p).value.1) in t.members)
  {
    hide AddressOf, IdentityAt, AllApart, RoomSubnet.Valid, RoomSubnet.IsBroadcast, RoomSubnet.IsAssignable;
    if Endpoints(p).Some? {
      var (src, dst) := Endpoints(p).value;
      LookupsAgree(t, Member(sender, src));
      LookupsAgree(t, Member(to, dst));
      if t.subnet.IsBroadcast(dst) {
        NoMemberIsBroadcast(t, dst);
      }
    }
  }

  lemma NoMemberIsBroadcast(t: Table, dst: Addr)
    requires t.Valid() && t.subnet.IsBroadcast(dst)
    ensures forall m :: m in t.members ==> m.address != dst
  {
    forall m | m in t.members ensures m.address != dst {
      AssignableIsNoBroadcast(t.subnet, m.address);
    }
  }

  /** What `s` became, a packet apart: same table, seats, names and view. */
  predicate OnlyForwards(s: State, after: State) {
    after == s.(log := after.log, delivered := after.delivered, gate := after.gate)
  }

  /**
   Routing is honest and exact.  A packet that is forwarded has as source the address the table
   gives its sender.  A broadcast the gate allows goes to every other seat exactly once, and to
   the host unless the host sent it; a unicast goes to exactly one party, the one the table gives
   its destination, never back to the sender; anything else goes nowhere.
   */
  lemma {:induction false} ForwardExact(s: State, sender: Identity, from: Option<LinkId>, p: seq<Byte>, now: nat)
    requires s.Valid() && (if from.Some? then s.SeatedOn(sender, from.value) else sender == s.own)
    ensures var after, route := s.Forward(sender, from, p, now), RouteOf(s.table, sender, p);
      && OnlyForwards(s, after)
      && (after.log != s.log || after.delivered != s.delivered ==>
            Endpoints(p).Some? && AddressOf(s.table.members, sender) == Some(Endpoints(p).value.0) && |p| <= MTU)
      && match route
         case Drop(_) => after == s
         case Broadcast =>
           if s.gate.Allow(sender, p, now).1 then
             && after.delivered == s.delivered + (if sender == s.own then [] else [p])
             && (forall i :: i in s.seated ==>
                   SentOn(after.log, s.seated[i])
                     == SentOn(s.log, s.seated[i]) + if i == sender then [] else [Packet(p)])
             && (forall l :: l !in s.Seats() ==> SentOn(after.log, l) == SentOn(s.log, l))
           else after.log == s.log && after.delivered == s.delivered
         case Unicast(to) =>
           && to != sender && AddressOf(s.table.members, to) == Some(Endpoints(p).value.1)
           && after.gate == s.gate
           && if to == s.own then after.delivered == s.delivered + [p] && after.log == s.log
              else && to in s.seated && after.delivered == s.delivered
                   && forall l ::
                        SentOn(after.log, l) == SentOn(s.log, l) + if l == s.seated[to] then [Packet(p)] else []
  {
    hide Table.Valid, Table.Admitted, Table.Removed, RoomSubnet.Valid, AddressOf, NamesOf, Decode;
    var route := RouteOf(s.table, sender, p);
    match route
    case Drop(_) =>
    case Broadcast =>
      if s.gate.Allow(sender, p, now).1 {
        BroadcastExact(s, sender, from, p, now);
      }
    case Unicast(to) =>
      UnicastIs(s.table, sender, p, to);
  }

  lemma {:induction false} UnicastIs(t: Table, sender: Identity, p: seq<Byte>, to: Identity)
    requires t.Valid() && RouteOf(t, sender, p) == Unicast(to)
    ensures Endpoints(p).Some? && to != sender && AddressOf(t.members, to) == Some(Endpoints(p).value.1)
  {
    LookupsAgree(t, Member(to, Endpoints(p).value.1));
  }

  lemma {:induction false} BroadcastExact(s: State, sender: Identity, from: Option<LinkId>, p: seq<Byte>, now: nat)
    requires s.Valid() && (if from.Some? then s.SeatedOn(sender, from.value) else sender == s.own)
    requires RouteOf(s.table, sender, p) == Broadcast && s.gate.Allow(sender, p, now).1
    ensures var after := s.Forward(sender, from, p, now);
      && (forall i :: i in s.seated ==>
            SentOn(after.log, s.seated[i]) == SentOn(s.log, s.seated[i]) + if i == sender then [] else [Packet(p)])
      && (forall l :: l !in s.Seats() ==> SentOn(after.log, l) == SentOn(s.log, l))
  {
    hide Table.Valid, Table.Admitted, Table.Removed, RoomSubnet.Valid, AddressOf, NamesOf, Decode;
    var after := s.Forward(sender, from, p, now);
    forall i | i in s.seated
      ensures SentOn(after.log, s.seated[i]) == SentOn(s.log, s.seated[i]) + if i == sender then [] else [Packet(p)]
    {
      if from == Some(s.seated[i]) {
        OneSeatEach(s, i, sender);
      }
    }
  }

  /** Nothing but a packet makes the host send one. */
  lemma {:induction false} NoPackets(s: State, link: LinkId, identity: Identity, m: Decoded<LanMessage>, now: nat,
                                     l: LinkId)
    requires s.table.subnet.Valid() && s.gate.limit.Valid() && s.chatGate.limit.Valid()
    requires !(m.Ok? && m.value.Packet?)
    ensures var was, sent := SentOn(s.log, l), SentOn(s.Told(link, identity, m, now).log, l);
      |was| <= |sent| && forall k :: |was| <= k < |sent| ==> !sent[k].Packet?
  {
    hide Gates.Gate.Allow, RoomSubnet.Valid, NamesOf, Gates.Limit.Valid, State.Greeted, State.NamesPublished,
         State.Say;
    match m
    case Ok(Hello(_)) => GreetedLog(s, link, l);
    case Ok(Name(name)) => NamesPublishedLog(s.(names := s.names[identity := name]), l);
    case Ok(Chat(text)) => SaidLog(s.(chatGate := s.chatGate.Allow(identity, [], now).0), identity, text, l);
    case _ =>
  }

  lemma NamesPublishedLog(s: State, l: LinkId)
    ensures SentOn(s.NamesPublished().log, l) == SentOn(s.log, l) + if l in s.Seats() then [s.NamesNow()] else []
  {
    hide NamesOf;
  }

  lemma SaidLog(s: State, from: Identity, text: Text, l: LinkId)
    ensures SentOn(s.Say(from, text).log, l)
         == SentOn(s.log, l) + if l in s.Seats() then [ChatFrom(from, text)] else []
  {
  }

  /** A member cannot be spoken for: what its link sends is only ever forwarded with its own address as source. */
  lemma {:induction false} NobodySpeaksForAnother(s: State, link: LinkId, bytes: seq<Byte>, now: nat, l: LinkId,
                                                  k: nat)
    requires s.Valid()
    requires var sent := SentOn(s.Data(link, bytes, now).log, l); |SentOn(s.log, l)| <= k < |sent| && sent[k].Packet?
    ensures var p := SentOn(s.Data(link, bytes, now).log, l)[k].packet;
      && link in s.links && s.links[link].Some? && Endpoints(p).Some?
      && AddressOf(s.table.members, s.links[link].value) == Some(Endpoints(p).value.0)
  {
    hide Table.Valid, RoomSubnet.Valid, Decode, Endpoints, AddressOf, State.Told, State.Forward, SeatsProved,
         SeatsInTable;
    var identity, m := s.links[link].value, Decode(bytes);
    assert s.Data(link, bytes, now) == s.Told(link, identity, m, now);
    if m.Ok? && m.value.Packet? {
      TellsPacket(s, link, identity, m.value.packet, now);
      OnlyItself(s, link, identity, m.value.packet, now, l, k);
    } else {
      NoPackets(s, link, identity, m, now, l);
    }
  }

  lemma TellsPacket(s: State, link: LinkId, identity: Identity, p: seq<Byte>, now: nat)
    requires s.table.subnet.Valid() && s.gate.limit.Valid() && s.chatGate.limit.Valid()
    ensures s.Told(link, identity, Ok(Packet(p)), now) == s.Forward(identity, Some(link), p, now)
  {
    hide State.Forward, RoomSubnet.Valid;
  }

  lemma {:induction false} OnlyItself(s: State, link: LinkId, identity: Identity, p: seq<Byte>, now: nat, l: LinkId,
                                      k: nat)
    requires s.Valid() && s.SeatedOn(identity, link)
    requires |SentOn(s.log, l)| <= k < |SentOn(s.Forward(identity, Some(link), p, now).log, l)|
    ensures SentOn(s.Forward(identity, Some(link), p, now).log, l)[k] == Packet(p)
    ensures Endpoints(p).Some? && AddressOf(s.table.members, identity) == Some(Endpoints(p).value.0)
  {
    hide Table.Valid, RoomSubnet.Valid, Endpoints, AddressOf, SeatsProved, SeatsInTable, Gates.Gate.Allow,
         State.Forward, Cast, NamesOf, OnlySeated, Shows;
    ForwardExact(s, identity, Some(link), p, now);
  }

  // ---------------------------------------------------------------- what members say

  /** A seated member's word, as the host hears it. */
  lemma DataIsTold(s: State, link: LinkId, identity: Identity, bytes: seq<Byte>, now: nat)
    requires s.Valid() && s.SeatedOn(identity, link)
    ensures s.Data(link, bytes, now) == s.Told(link, identity, Decode(bytes), now)
  {
    hide Table.Valid, RoomSubnet.Valid, Decode, State.Told, SeatsInTable, OnlySeated, Shows, NamesOf;
  }

  /** Whatever a member says, nobody's seat changes. */
  lemma {:induction false} DataKeepsSeats(s: State, link: LinkId, bytes: seq<Byte>, now: nat)
    requires s.Valid()
    ensures s.Data(link, bytes, now).Valid() && s.Data(link, bytes, now).seated == s.seated
  {
    hide Table.Valid, RoomSubnet.Valid, Decode, State.Told, NamesOf, Gates.Gate.Allow;
    StepValid(s, LinkData(link, bytes, now));
    if link in s.links && s.links[link].Some? && s.SeatedOn(s.links[link].value, link) {
      ToldKeepsSeats(s, link, s.links[link].value, Decode(bytes), now);
    }
  }

  lemma ToldKeepsSeats(s: State, link: LinkId, identity: Identity, m: Decoded<LanMessage>, now: nat)
    requires s.table.subnet.Valid() && s.gate.limit.Valid() && s.chatGate.limit.Valid()
    ensures s.Told(link, identity, m, now).seated == s.seated
  {
    hide RoomSubnet.Valid, NamesOf, Gates.Gate.Allow, State.Forward;
    match m
    case Ok(Packet(p)) => ForwardTouches(s, identity, Some(link), p, now);
    case _ =>
  }

  /** Each Hello of a seated member is answered with the table and the names as they are. */
  lemma {:induction false} HelloAnswered(s: State, link: LinkId, identity: Identity, bytes: seq<Byte>, now: nat)
    requires s.Valid() && s.SeatedOn(identity, link) && Decode(bytes).Ok? && Decode(bytes).value.Hello?
    ensures var after := s.Data(link, bytes, now);
      && after == s.(log := after.log)
      && SentOn(after.log, link) == SentOn(s.log, link) + [s.Snapshot(), s.NamesNow()]
  {
    hide Table.Valid, RoomSubnet.Valid, Decode, State.Greeted, State.Data, SeatsProved, SeatsInTable, OnlySeated,
         Shows, NamesOf;
    DataIsTold(s, link, identity, bytes, now);
    GreetedTouches(s, link);
    GreetedLog(s, link, link);
  }

  /** A name is taken for the identity the link proved and nobody else, and everyone is told. */
  lemma {:induction false} NameTaken(s: State, link: LinkId, identity: Identity, bytes: seq<Byte>, now: nat)
    requires s.Valid() && s.SeatedOn(identity, link) && Decode(bytes).Ok? && Decode(bytes).value.Name?
    ensures var after, name := s.Data(link, bytes, now), Decode(bytes).value.name;
      && after.names == s.names[identity := name]
      && after.view.names == NamesOf(s.table.members, after.names)
      && forall l :: l in s.Seats() ==>
           SentOn(after.log, l) == SentOn(s.log, l) + if after.names == s.names then [] else [after.NamesNow()]
  {
    hide Table.Valid, RoomSubnet.Valid, Decode, State.Data, SeatsProved, SeatsInTable, OnlySeated, NamesOf;
    DataIsTold(s, link, identity, bytes, now);
    var name := Decode(bytes).value.name;
    if !(identity in s.names && s.names[identity] == name) {
      var named := s.(names := s.names[identity := name]);
      assert named.names != s.names by { assert named.names[identity] == name; }
      forall l ensures SentOn(named.NamesPublished().log, l)
                    == SentOn(s.log, l) + if l in s.Seats() then [named.NamesNow()] else []
      {
        NamesPublishedLog(named, l);
      }
    } else {
      assert s.names[identity := name] == s.names;
    }
  }

  /** Who said a line is what the host knows of its link; every seat hears it, the sender's too. */
  lemma {:induction false} LineStamped(s: State, link: LinkId, identity: Identity, bytes: seq<Byte>, now: nat,
                                       l: LinkId)
    requires s.Valid() && s.SeatedOn(identity, link) && Decode(bytes).Ok? && Decode(bytes).value.Chat?
    ensures var after, allowed := s.Data(link, bytes, now), s.chatGate.Allow(identity, [], now).1;
      SentOn(after.log, l)
        == SentOn(s.log, l) + if allowed && l in s.Seats() then [ChatFrom(identity, Decode(bytes).value.text)] else []
  {
    hide Table.Valid, RoomSubnet.Valid, Decode, State.Data, State.Say, SeatsProved, SeatsInTable, OnlySeated,
         Shows, NamesOf,
         Gates.Gate.Allow;
    DataIsTold(s, link, identity, bytes, now);
    SaidLog(s.(chatGate := s.chatGate.Allow(identity, [], now).0), identity, Decode(bytes).value.text, l);
  }

  // ---------------------------------------------------------------- what the host says itself

  /** The host's own line reaches every seat once, under its identity, and is kept. */
  lemma HostLineHeard(s: State, text: Text, l: LinkId)
    requires s.Valid()
    ensures var after := s.OnEvent(SayLine(text));
      && SentOn(after.log, l) == SentOn(s.log, l) + (if l in s.Seats() then [ChatFrom(s.own, text)] else [])
      && after == s.(log := after.log, lines := s.lines.Pushed(s.own, text))
  {
    hide State.Valid, Cast;
    ValidGates(s);
    SaidLog(s, s.own, text, l);
  }

  /** Its name is told to every seat as soon as it is set, among the others', and its own view shows it. */
  lemma HostNameTold(s: State, name: Text, l: LinkId)
    requires s.Valid()
    ensures var after, names := s.OnEvent(SetName(name)), NamesOf(s.table.members, s.names[s.own := name]);
      && SentOn(after.log, l) == SentOn(s.log, l) + (if l in s.Seats() then [Names(names)] else [])
      && after.names == s.names[s.own := name] && after.view == s.view.(names := names)
      && after.table == s.table && after.seated == s.seated && after.links == s.links
      && Named(s.own, name) in names
  {
    hide Cast, NamesOf, Table.Valid, RoomSubnet.Valid, SeatsProved, OnlySeated, Shows;
    NamesPublishedLog(s.(names := s.names[s.own := name]), l);
    NamesAreMembers(s.table.members, s.names[s.own := name], Named(s.own, name));
  }

  lemma ValidGates(s: State)
    requires s.Valid()
    ensures s.table.subnet.Valid() && s.gate.limit.Valid() && s.chatGate.limit.Valid()
  {
  }

  // ---------------------------------------------------------------- links that are no seat

  /** A link comes unproved, and may be closed for want of proof; one that proved who it is is not. */
  lemma LinksComeAndGo(s: State, link: LinkId)
    requires s.Valid()
    ensures s.OnEvent(LinkEstablished(link)) == s.(links := s.links[link := None])
    ensures s.OnEvent(IdentifyTimeout(link))
         == if link in s.links && s.links[link].None? then s.(links := s.links - {link}) else s
  {
    hide State.Valid;
    ValidGates(s);
  }

  /** What comes by a link that is no seat, or that is not known at all, changes nothing. */
  lemma NotHeard(s: State, link: LinkId, bytes: seq<Byte>, now: nat, identity: Identity)
    requires s.Valid()
    ensures (forall i :: i in s.seated ==> s.seated[i] != link) ==> s.Data(link, bytes, now) == s
    ensures link !in s.links ==> s.Seat(link, identity) == s && s.Closed(link) == s
  {
    hide Table.Valid, RoomSubnet.Valid, SeatsInTable, OnlySeated, Shows, NamesOf, Decode, State.Told;
  }

  /** A line over its rate is dropped without a word, and so is any word that is the host's own. */
  lemma {:induction false} Dropped(s: State, link: LinkId, identity: Identity, bytes: seq<Byte>, now: nat)
    requires s.Valid() && s.SeatedOn(identity, link)
    ensures match Decode(bytes)
      case Ok(Chat(_)) =>
        var (g, allowed) := s.chatGate.Allow(identity, [], now);
        !allowed ==> s.Data(link, bytes, now) == s.(chatGate := g)
      case Ok(Name(name)) => identity in s.names && s.names[identity] == name ==> s.Data(link, bytes, now) == s
      case Ok(Members(_, _, _)) => s.Data(link, bytes, now) == s
      case Ok(Turned(_)) => s.Data(link, bytes, now) == s
      case Ok(Names(_)) => s.Data(link, bytes, now) == s
      case Ok(ChatFrom(_, _)) => s.Data(link, bytes, now) == s
      case Ok(Unknown(_)) => s.Data(link, bytes, now) == s
      case Err(_) => s.Data(link, bytes, now) == s
      case _ => true
  {
    hide State.Valid, Decode, Gates.Gate.Allow, State.Greeted, State.Forward, State.NamesPublished, State.Say;
    ValidGates(s);
    DataIsTold(s, link, identity, bytes, now);
  }

  /** The time of day is what lines are stamped with from then on. */
  lemma ClockIs(s: State, time: nat, text: Text)
    requires s.Valid()
    ensures s.OnEvent(Clock(time)).lines == s.lines.(clock := time)
    ensures s.OnEvent(Clock(time)) == s.(lines := s.OnEvent(Clock(time)).lines)
    ensures var kept := s.OnEvent(Clock(time)).lines.Pushed(s.own, text).kept; kept != [] && kept[|kept| - 1].at == time
  {
    hide State.Valid;
    ValidGates(s);
  }
}
