/**
 A packet's whole way, from a program on one member's machine to one on another's and back
 (`lan_pump.rs`, `lan_session.rs`): the sender's pump, its link, the host, the other's link, the
 other's pump.
 */
module Across {
  import opened Wire
  import opened Ipv4
  import opened Subnet
  import opened Members
  import opened Messages
  import opened Rewrite
  import opened RewriteLaws
  import opened PumpLaws
  import Pump
  import Filter
  import FilterLaws
  import Host
  import HostLaws
  import MemberSide
  import Rebinder
  import RoomCheck
  import Gates
  import Verdicts
  import PumpReplies

  // ---------------------------------------------------------------- from end to end

  /** Where a pump joins the room: a member with its link to the host, or the host itself. */
  datatype End = Linked(side: MemberSide.State, link: Host.LinkId) | Hosting

  function Who(h: Host.State, e: End): Identity { if e.Linked? then e.side.view.own else h.own }

  /** The end is seated at `address`, and knows it. */
  predicate SeatedAt(h: Host.State, e: End, address: Addr) {
    && AddressOf(h.table.members, Who(h, e)) == Some(address)
    && (e.Linked? ==>
          && h.SeatedOn(e.side.view.own, e.link) && e.side.link == Some(e.link)
          && e.side.view.subnet.Valid() && e.side.view.address == Some(address))
  }

  /** What becomes of the host once `q`, of this end's machine, reached it. */
  function Posted(h: Host.State, e: End, q: seq<Byte>, now: nat): Host.State
    requires h.table.subnet.Valid() && h.gate.limit.Valid() && h.chatGate.limit.Valid()
  {
    h.OnEvent(if e.Linked? then Host.LinkData(e.link, Encode(Packet(q)), now) else Host.FromAdapter(q, now))
  }

  /** The machine's `q` is put on the link to the host, unless the host is here. */
  predicate Sends(e: End, q: seq<Byte>) {
    e.Linked? && e.side.view.subnet.Valid() ==>
      e.side.OnEvent(MemberSide.FromAdapter(q)) == e.side.(sent := e.side.sent + [(e.link, Packet(q))])
  }

  /** What the host puts on the link is handed to the machine, once, and nothing else happens. */
  predicate Takes(e: End, q: seq<Byte>) {
    e.Linked? && e.side.view.subnet.Valid() ==>
      e.side.OnEvent(MemberSide.LinkData(e.link, Encode(Packet(q)))) == e.side.(delivered := e.side.delivered + [q])
  }

  /** The host sends `q` on to one end, once, and to nobody else; nothing else changes. */
  ghost predicate SentOnce(h: Host.State, after: Host.State, to: End, q: seq<Byte>) {
    && HostLaws.OnlyForwards(h, after) && after.gate == h.gate
    && after.delivered == h.delivered + (if to.Hosting? then [q] else [])
    && forall l ::
         Host.SentOn(after.log, l) == Host.SentOn(h.log, l) + if to.Linked? && l == to.link then [Packet(q)] else []
  }

  ghost predicate Passes(h: Host.State, from: End, to: End, q: seq<Byte>, now: nat)
    requires h.table.subnet.Valid() && h.gate.limit.Valid() && h.chatGate.limit.Valid()
  {
    Sends(from, q) && SentOnce(h, Posted(h, from, q, now), to, q) && Takes(to, q)
  }

  lemma Limits(h: Host.State)
    requires h.Valid()
    ensures h.table.Valid() && h.table.subnet.Valid() && h.gate.limit.Valid() && h.chatGate.limit.Valid()
  {
  }

  /** A packet whose addresses are two ends' passes from the one to the other. */
  lemma {:induction false} UnicastPasses(h: Host.State, from: End, to: End, a: Addr, b: Addr, q: seq<Byte>, now: nat)
    requires h.Valid() && h.table.subnet.Valid() && h.gate.limit.Valid() && h.chatGate.limit.Valid()
    requires SeatedAt(h, from, a) && SeatedAt(h, to, b) && Who(h, from) != Who(h, to)
    requires Endpoints(q) == Some((a, b)) && |q| <= MTU
    ensures Passes(h, from, to, q, now)
  {
    hide Host.State.Valid, RoomSubnet.Valid, Host.State.Forward, Host.RouteOf, Decode, Encode, AddressOf, Sends, Takes,
         SentOnce, Posted, Host.State.SeatedOn;
    RoundTrip(Packet(q));
    Limits(h);
    RoutedTo(h, Who(h, from), a, Who(h, to), b, q);
    PostedIs(h, from, q, now);
    ForwardedOnce(h, from, to, q, now);
    EndSends(h, from, a, q);
    EndTakes(h, to, b, q);
  }

  lemma EndSends(h: Host.State, e: End, a: Addr, q: seq<Byte>)
    requires SeatedAt(h, e, a) && Endpoints(q).Some? && Endpoints(q).value.0 == a
    ensures Sends(e, q)
  {
    hide RoomSubnet.Valid;
  }

  lemma EndTakes(h: Host.State, e: End, b: Addr, q: seq<Byte>)
    requires SeatedAt(h, e, b) && Endpoints(q).Some? && Endpoints(q).value.1 == b
    requires Decode(Encode(Packet(q))) == Ok(Packet(q))
    ensures Takes(e, q)
  {
    hide RoomSubnet.Valid, Decode, Encode, RoomSubnet.IsBroadcast;
  }

  lemma ForwardedOnce(h: Host.State, from: End, to: End, q: seq<Byte>, now: nat)
    requires h.Valid() && h.table.subnet.Valid() && h.gate.limit.Valid()
    requires from.Linked? ==> h.SeatedOn(from.side.view.own, from.link)
    requires to.Linked? ==> h.SeatedOn(to.side.view.own, to.link)
    requires Host.RouteOf(h.table, Who(h, from), q) == Host.Unicast(Who(h, to))
    ensures SentOnce(h, h.Forward(Who(h, from), if from.Linked? then Some(from.link) else None, q, now), to, q)
  {
    hide RoomSubnet.Valid, Table.Valid, Host.State.Forward, Host.RouteOf, AddressOf, Host.NamesOf;
    HostLaws.ForwardExact(h, Who(h, from), if from.Linked? then Some(from.link) else None, q, now);
  }

  lemma PostedIs(h: Host.State, e: End, q: seq<Byte>, now: nat)
    requires h.Valid() && h.table.subnet.Valid() && h.gate.limit.Valid() && h.chatGate.limit.Valid()
    requires (e.Linked? ==> h.SeatedOn(e.side.view.own, e.link)) && Decode(Encode(Packet(q))) == Ok(Packet(q))
    ensures Posted(h, e, q, now) == h.Forward(Who(h, e), if e.Linked? then Some(e.link) else None, q, now)
  {
    hide Host.State.Valid, RoomSubnet.Valid, Decode, Encode, Host.State.Forward, Host.State.Data, Host.NamesOf;
    if e.Linked? {
      HostLaws.DataIsTold(h, e.link, e.side.view.own, Encode(Packet(q)), now);
    }
  }

  lemma {:induction false} RoutedTo(h: Host.State, from: Identity, a: Addr, to: Identity, b: Addr, q: seq<Byte>)
    requires h.table.Valid() && from != to && Endpoints(q) == Some((a, b)) && |q| <= MTU
    requires AddressOf(h.table.members, from) == Some(a) && AddressOf(h.table.members, to) == Some(b)
    ensures Host.RouteOf(h.table, from, q) == Host.Unicast(to)
  {
    hide Host.RouteOf;
    HostLaws.RoutesTo(h.table, from, q, to);
  }

  // ---------------------------------------------------------------- from program to program

  /** A machine in the room: its pump, where that joins, its room address, and the address a program is bound to. */
  datatype Machine = Machine(pump: Pump.State, end: End, address: Addr, local: Addr)

  function Mirrored(ports: Ports): Ports { Ports(ports.proto, ports.dport, ports.sport) }

  /** The program may send to `dst`: its address is this machine's, and `dst` no broadcast the survey knows. */
  predicate MaySend(m: Machine, dst: Addr) {
    && (m.local == m.address || m.local in m.pump.rebinder.survey.locals)
    && dst !in m.pump.rebinder.survey.broadcasts
  }

  /**
   A packet for the program, from `peer`, is let in, to an open port or on a flow from here; and the
   translator has the program where it is, or nothing to say if that is the room address.
   */
  predicate Accepts(m: Machine, peer: Addr, ports: Ports, now: nat) {
    && (m.pump.Synced().filter.Admits(ports.proto, ports.dport)
        || m.pump.filter.Live(Filter.FlowKey(ports.proto, ports.dport, peer, ports.sport), now))
    && var target := m.pump.rebinder.TargetOf(ports.proto, ports.dport, peer, ports.sport, now).1;
       if m.local == m.address then target.None? else target.Some? && target.value.to == m.local
  }

  /** `x` is what the program is handed of `q`: `q` as it came, or edited only as far as its address. */
  predicate IsHanded(m: Machine, x: seq<Byte>, q: seq<Byte>) {
    if m.local == m.address then x == q else HandedTo(x, q, m.local)
  }

  lemma LeavesUntouched(s: Pump.State, p: seq<Byte>, own: Addr, subnet: RoomSubnet, now: nat, probe: bool,
                        dst: Addr, ports: Ports)
    requires subnet.Valid() && Ready(p, own, dst, ports) && !s.rebinder.Redirects(dst, subnet)
    requires !subnet.IsBroadcast(dst)
    ensures s.Up(p, Some(own), subnet, now, probe).1 == Some(p)
  {
    hide RoomSubnet.Valid, RoomSubnet.IsBroadcast, RoomSubnet.IsPseudoBroadcast, Filter.Merged, Transport,
         Filter.State.Outbound, Filter.State.Remembered, Pump.OwnPortUnreachable, Pump.IsChatterBroadcast;
    UnicastLetOut(s.Synced().filter, p, own, subnet, now, dst, ports);
    assert s.rebinder.Outbound(p, own, subnet, now, probe) == (s.rebinder, p, Rebinder.Done(false, false));
    assert s.(rebinder := s.rebinder) == s;
  }

  /** What a program sends to a member leaves with the room address. */
  lemma Leaves(m: Machine, p: seq<Byte>, subnet: RoomSubnet, now: nat, probe: bool, dst: Addr, ports: Ports)
    requires subnet.Valid() && WellFormed(p) && Endpoints(p) == Some((m.local, dst)) && Transport(p) == Some(ports)
    requires MaySend(m, dst) && !subnet.IsBroadcast(dst) && !subnet.IsPseudoBroadcast(dst)
    ensures m.pump.Up(p, Some(m.address), subnet, now, probe).1 == Some(Rewritten(p, Src, m.address))
    ensures Ready(Rewritten(p, Src, m.address), m.address, dst, ports)
  {
    hide RoomSubnet.Valid, RoomSubnet.IsBroadcast, RoomSubnet.IsPseudoBroadcast, Pump.State.Up, RewrittenHeader,
         RewrittenBody;
    UnicastReady(p, m.address, m.local, dst, ports);
    if m.local == m.address {
      LeavesUntouched(m.pump, p, m.address, subnet, now, probe, dst, ports);
    } else {
      UnicastTables(m.pump, p, m.address, subnet, now, probe, m.local, dst, ports);
    }
  }

  lemma HandedAsItCame(s: Pump.State, q: seq<Byte>, own: Addr, subnet: RoomSubnet, now: nat, peer: Addr, ports: Ports)
    requires subnet.Valid() && Answers(q, own, peer, Mirrored(ports))
    requires s.Synced().filter.Inbound(q, now).1
    requires s.rebinder.TargetOf(ports.proto, ports.dport, peer, ports.sport, now).1.None?
    ensures s.Down(q, Some(own), subnet, now).1 == Pump.Handed(q)
  {
    hide RoomSubnet.Valid, Filter.Merged, Filter.State.Inbound, RoomCheck.Answer, RoomCheck.IsProbe;
    TransportProto(q);
  }

  lemma LetIn(f: Filter.State, q: seq<Byte>, own: Addr, peer: Addr, ports: Ports, now: nat)
    requires Answers(q, own, peer, Mirrored(ports))
    requires f.Admits(ports.proto, ports.dport)
          || f.Live(Filter.FlowKey(ports.proto, ports.dport, peer, ports.sport), now)
    ensures f.Inbound(q, now).1
  {
    TransportProto(q);
  }

  lemma Handed(m: Machine, q: seq<Byte>, subnet: RoomSubnet, now: nat, peer: Addr, ports: Ports)
    requires subnet.Valid() && Answers(q, m.address, peer, Mirrored(ports)) && Accepts(m, peer, ports, now)
    ensures var outcome := m.pump.Down(q, Some(m.address), subnet, now).1;
      outcome.Handed? && IsHanded(m, outcome.packet, q)
  {
    hide RoomSubnet.Valid, Pump.State.Down, Rebinder.State.TargetOf, Answers, HandedTo, Filter.Merged;
    if m.local == m.address {
      LetIn(m.pump.Synced().filter, q, m.address, peer, ports, now);
      HandedAsItCame(m.pump, q, m.address, subnet, now, peer, ports);
    } else {
      MirrorKey(q, m.address, peer, Mirrored(ports));
      AnswerComesBack(m.pump, q, m.address, subnet, now, peer, Mirrored(ports),
                      Filter.FlowKey(ports.proto, ports.dport, peer, ports.sport), m.local);
    }
  }

  /** The times of a packet's stations: its pump, the host, the other pump. */
  datatype Times = Times(up: nat, host: nat, down: nat)

  /** Both machines are in the room, apart, and the packet is one a program on `a` sends to `b`. */
  predicate Travels(h: Host.State, a: Machine, b: Machine, p: seq<Byte>, ports: Ports) {
    && SeatedAt(h, a.end, a.address) && SeatedAt(h, b.end, b.address) && Who(h, a.end) != Who(h, b.end)
    && WellFormed(p) && Endpoints(p) == Some((a.local, b.address)) && Transport(p) == Some(ports) && |p| <= MTU
    && MaySend(a, b.address) && !RoomCheck.IsProbe(Rewritten(p, Src, a.address))
  }

  /** From program to program: out of one pump, through the host to that machine alone, and in at the other. */
  ghost predicate Arrives(h: Host.State, a: Machine, b: Machine, p: seq<Byte>, times: Times, probe: bool)
    requires |p| > 0
    requires h.table.subnet.Valid() && h.gate.limit.Valid() && h.chatGate.limit.Valid()
  {
    var q := Rewritten(p, Src, a.address);
    && a.pump.Up(p, Some(a.address), h.table.subnet, times.up, probe).1 == Some(q)
    && Passes(h, a.end, b.end, q, times.host)
    && var outcome := b.pump.Down(q, Some(b.address), h.table.subnet, times.down).1;
       outcome.Handed? && IsHanded(b, outcome.packet, q)
  }

  lemma {:induction false} PacketArrives(h: Host.State, a: Machine, b: Machine, p: seq<Byte>, ports: Ports,
                                         times: Times, probe: bool)
    requires h.Valid() && h.table.subnet.Valid() && h.gate.limit.Valid() && h.chatGate.limit.Valid()
    requires Travels(h, a, b, p, ports) && Accepts(b, a.address, ports, times.down)
    ensures Arrives(h, a, b, p, times, probe)
  {
    hide Host.State.Valid, RoomSubnet.Valid, RoomSubnet.IsBroadcast, RoomSubnet.IsPseudoBroadcast, SeatedAt, Passes,
         Accepts, MaySend, Rewritten, IsHanded, Pump.State.Up, Pump.State.Down, Who;
    var q, subnet := Rewritten(p, Src, a.address), h.table.subnet;
    PlainMember(h, b.end, b.address);
    Leaves(a, p, subnet, times.up, probe, b.address, ports);
    UnicastPasses(h, a.end, b.end, a.address, b.address, q, times.host);
    Handed(b, q, subnet, times.down, a.address, ports);
  }

  lemma PlainMember(h: Host.State, e: End, address: Addr)
    requires h.Valid() && SeatedAt(h, e, address)
    ensures !h.table.subnet.IsBroadcast(address) && !h.table.subnet.IsPseudoBroadcast(address)
  {
    hide RoomSubnet.IsBroadcast;
    Limits(h);
    assert Member(Who(h, e), address) in h.table.members;
    AssignableIsNoBroadcast(h.table.subnet, address);
  }

  /** While the program talks, whatever `a`'s pump carries: no other local address takes the flow, and it is kept up. */
  predicate TalksOn(s: Pump.State, es: seq<Event>, own: Addr, subnet: RoomSubnet, talk: Talk, since: nat, later: nat)
    requires subnet.Valid()
  {
    && Unshared(s, es, own, subnet, {talk.Key()}, {}, talk.to)
    && KeptUp(s, es, own, subnet, talk, Clock(Some(since), since))
    && var c := ClockAfter(s, es, own, subnet, talk, Clock(Some(since), since));
       c.Translates(later) && (c.Filters(later) || PortOpen(PumpLaws.Run(s, es, own, subnet), talk))
  }

  /**
   Playing across a room.  What a program sends from another local address to a member reaches
   the program there, through both pumps and the host, if it answers on that port; and what that
   one answers, whenever the conversation is still kept up, reaches the first, wherever the two
   programs are bound and whichever of the machines hosts.
   */
  lemma {:induction false} ThereAndBack(h: Host.State, a: Machine, b: Machine, p: seq<Byte>, ports: Ports,
                                        times: Times, probe: bool, es: seq<Event>, h': Host.State, a': Machine,
                                        b': Machine, r: seq<Byte>, times': Times, probe': bool)
    requires h.Valid() && h.table.subnet.Valid() && h.gate.limit.Valid() && h.chatGate.limit.Valid()
    requires h'.Valid() && h'.table.subnet == h.table.subnet && h'.gate.limit.Valid() && h'.chatGate.limit.Valid()
    requires Travels(h, a, b, p, ports) && a.local != a.address && Accepts(b, a.address, ports, times.down)
    requires var talk, subnet := Talk(a.local, b.address, ports), h.table.subnet;
      var sending := a.pump.Up(p, Some(a.address), subnet, times.up, probe).0;
      && a.pump.filter.Fits(talk.Key(), times.up) && RoomFor(a.pump.rebinder.flows, talk.Key(), times.up)
      && TalksOn(sending, es, a.address, subnet, talk, times.up, times'.down)
      && a' == a.(end := a'.end, pump := PumpLaws.Run(sending, es, a.address, subnet))
    requires b' == b.(end := b'.end, pump := b'.pump) && Travels(h', b', a', r, Mirrored(ports))
    ensures Arrives(h, a, b, p, times, probe) && Arrives(h', b', a', r, times', probe')
  {
    hide Host.State.Valid, RoomSubnet.Valid, SeatedAt, Arrives, Rewritten, Pump.State.Up, Pump.State.Down, Who;
    PacketArrives(h, a, b, p, ports, times, probe);
    StillAccepts(h, a, b, p, ports, times, probe, es, times'.down);
    PacketArrives(h', b', a', r, Mirrored(ports), times', probe');
  }

  lemma {:induction false} StillAccepts(h: Host.State, a: Machine, b: Machine, p: seq<Byte>, ports: Ports,
                                        times: Times, probe: bool, es: seq<Event>, later: nat)
    requires h.Valid() && h.table.subnet.Valid()
    requires Travels(h, a, b, p, ports) && a.local != a.address
    requires var talk, subnet := Talk(a.local, b.address, ports), h.table.subnet;
      && a.pump.filter.Fits(talk.Key(), times.up) && RoomFor(a.pump.rebinder.flows, talk.Key(), times.up)
      && TalksOn(a.pump.Up(p, Some(a.address), subnet, times.up, probe).0, es, a.address, subnet, talk, times.up, later)
    ensures var sending := a.pump.Up(p, Some(a.address), h.table.subnet, times.up, probe).0;
      Accepts(a.(pump := PumpLaws.Run(sending, es, a.address, h.table.subnet)), b.address, Mirrored(ports), later)
  {
    hide Host.State.Valid, RoomSubnet.Valid, SeatedAt, Rewritten, Pump.State.Up, Pump.State.Down, Who, Unshared,
         KeptUp, ClockAfter, RoomFor, Filter.State.Fits, RoomSubnet.IsBroadcast, RoomSubnet.IsPseudoBroadcast;
    var talk, subnet := Talk(a.local, b.address, ports), h.table.subnet;
    PlainMember(h, b.end, b.address);
    UnicastLeaves(a.pump, p, a.address, subnet, times.up, probe, a.local, b.address, ports);
    var sending := a.pump.Up(p, Some(a.address), subnet, times.up, probe).0;
    ConversationNoted(sending, es, a.address, subnet, talk, Clock(Some(times.up), times.up));
  }

  // ---------------------------------------------------------------- searches

  /** The host sends `q` on to every seat but the sender's, and keeps it itself unless it sent it. */
  ghost predicate SentToAll(h: Host.State, after: Host.State, sender: Identity, q: seq<Byte>) {
    && HostLaws.OnlyForwards(h, after)
    && after.delivered == h.delivered + (if sender == h.own then [] else [q])
    && (forall i :: i in h.seated ==>
          Host.SentOn(after.log, h.seated[i])
            == Host.SentOn(h.log, h.seated[i]) + if i == sender then [] else [Packet(q)])
    && (forall l :: l !in h.Seats() ==> Host.SentOn(after.log, l) == Host.SentOn(h.log, l))
  }

  /** A broadcast from a member's address, that the gate lets through, goes to all others. */
  lemma {:induction false} BroadcastPasses(h: Host.State, from: End, a: Addr, dst: Addr, q: seq<Byte>, now: nat)
    requires h.Valid() && h.table.subnet.Valid() && h.gate.limit.Valid() && h.chatGate.limit.Valid()
    requires SeatedAt(h, from, a) && Endpoints(q) == Some((a, dst)) && |q| <= MTU && h.table.subnet.IsBroadcast(dst)
    requires h.gate.Allow(Who(h, from), q, now).1
    ensures Sends(from, q) && SentToAll(h, Posted(h, from, q, now), Who(h, from), q)
  {
    hide Host.State.Valid, RoomSubnet.Valid, RoomSubnet.IsBroadcast, Host.State.Forward, Host.RouteOf, Decode, Encode,
         AddressOf, Sends, Posted, Host.State.SeatedOn, Gates.Gate.Allow;
    RoundTrip(Packet(q));
    Limits(h);
    LookupsAgree(h.table, Member(Who(h, from), a));
    HostLaws.RoutesTo(h.table, Who(h, from), q, Who(h, from));
    PostedIs(h, from, q, now);
    HostLaws.ForwardExact(h, Who(h, from), if from.Linked? then Some(from.link) else None, q, now);
    EndSends(h, from, a, q);
  }

  lemma EndTakesAll(e: End, subnet: RoomSubnet, q: seq<Byte>)
    requires subnet.Valid() && Endpoints(q).Some? && subnet.IsBroadcast(Endpoints(q).value.1)
    requires (e.Linked? ==> e.side.link == Some(e.link) && e.side.view.subnet == subnet) && |q| <= MTU
    ensures Takes(e, q)
  {
    hide RoomSubnet.Valid, Decode, Encode, RoomSubnet.IsBroadcast;
    RoundTrip(Packet(q));
  }

  /** A search by a program on `a`: to a broadcast, or one it took for that; its port may be broadcast to. */
  predicate Asks(h: Host.State, a: Machine, p: seq<Byte>, ports: Ports)
    requires h.table.subnet.Valid()
  {
    && SeatedAt(h, a.end, a.address)
    && WellFormed(p) && Endpoints(p).value.0 == a.local && Transport(p) == Some(ports) && |p| <= MTU
    && (a.local == a.address || a.local in a.pump.rebinder.survey.locals)
    && (h.table.subnet.IsBroadcast(Endpoints(p).value.1)
        || Verdicts.MeantForRoom(a.pump.rebinder, Endpoints(p).value.1, h.table.subnet))
    && Verdicts.BroadcastOpen(a.pump.Synced().filter, ports.proto, ports.dport)
    && (ports.proto == Udp ==> !Verdicts.Noise(ports.dport))
  }

  /** What leaves `a`: the translated search. */
  function Asked(a: Machine, p: seq<Byte>, subnet: RoomSubnet, now: nat, probe: bool): seq<Byte>
    requires subnet.Valid()
  {
    a.pump.rebinder.Outbound(p, a.address, subnet, now, probe).1
  }

  lemma {:induction false} SearchGoesOut(h: Host.State, a: Machine, p: seq<Byte>, ports: Ports, now: nat, probe: bool)
    requires h.table.subnet.Valid() && Asks(h, a, p, ports)
    ensures var q, subnet := Asked(a, p, h.table.subnet, now, probe), h.table.subnet;
      && a.pump.Up(p, Some(a.address), subnet, now, probe).1 == Some(q)
      && WellFormed(q) && Endpoints(q).Some? && Endpoints(q).value.0 == a.address
      && subnet.IsBroadcast(Endpoints(q).value.1) && Transport(q) == Some(ports) && |q| == |p|
  {
    hide RoomSubnet.Valid, RoomSubnet.IsBroadcast, Rebinder.State.Outbound, Pump.State.Up, SeatedAt, Transport, Num,
         HostSize, Verdicts.BroadcastOpen, Verdicts.MeantForRoom, Verdicts.Noise;
    var r, subnet := a.pump.rebinder, h.table.subnet;
    var dst, q := Endpoints(p).value.1, Asked(a, p, subnet, now, probe);
    Verdicts.OutboundAddresses(r, p, a.address, subnet, now, probe);
    TranslatedReads(r, p, a.address, subnet, now, probe);
    BroadcastNum(subnet);
    SearchAllowed(a.pump, p, q, a.address, subnet, now, probe, ports);
  }

  lemma TranslatedReads(r: Rebinder.State, p: seq<Byte>, own: Addr, subnet: RoomSubnet, now: nat, probe: bool)
    requires subnet.Valid() && WellFormed(p) && Transport(p).Some?
    ensures var q := r.Outbound(p, own, subnet, now, probe).1;
      WellFormed(q) && Transport(q) == Transport(p) && |q| == |p|
  {
    hide RoomSubnet.Valid, RoomSubnet.IsBroadcast, RoomSubnet.IsPseudoBroadcast, Rewritten, Rebinder.State.Opened,
         Transport, IpHeaderValid;
    if r.Redirects(Endpoints(p).value.1, subnet) {
      ReadsAlike(p, Dst, subnet.Broadcast());
    }
    ReadsAlike(r.Redirected(p, subnet), Src, own);
  }

  lemma SearchAllowed(s: Pump.State, p: seq<Byte>, q: seq<Byte>, own: Addr, subnet: RoomSubnet, now: nat,
                      probe: bool, ports: Ports)
    requires subnet.Valid() && q == s.rebinder.Outbound(p, own, subnet, now, probe).1
    requires WellFormed(q) && Endpoints(q).Some? && Endpoints(q).value.0 == own && Transport(q) == Some(ports)
    requires Verdicts.BroadcastOpen(s.Synced().filter, ports.proto, ports.dport)
    requires ports.proto == Udp ==> !Verdicts.Noise(ports.dport)
    ensures s.Up(p, Some(own), subnet, now, probe).1 == Some(q)
  {
    hide RoomSubnet.Valid, RoomSubnet.IsBroadcast, Rebinder.State.Outbound, Pump.State.Up, Filter.State.Outbound,
         Filter.Merged;
    Verdicts.SentWhen(s, p, own, subnet, now, probe);
    Verdicts.OutboundAllows(s.Synced().filter, q, subnet, now);
    TransportProto(q);
  }

  /**
   Discovery.  A search that leaves one member's machine and that the host's gate lets through is
   put on every other member's link, and handed over, as it is, by every machine whose port is
   open, whether the search named the room's broadcast, another network's, or an old game's.
   */
  lemma {:induction false} SearchReaches(h: Host.State, a: Machine, b: Machine, p: seq<Byte>, ports: Ports,
                                         times: Times, probe: bool)
    requires h.Valid() && h.table.subnet.Valid() && h.gate.limit.Valid() && h.chatGate.limit.Valid()
    requires Asks(h, a, p, ports) && SeatedAt(h, b.end, b.address) && Who(h, a.end) != Who(h, b.end)
    requires b.end.Linked? ==> b.end.side.view.subnet == h.table.subnet
    requires var q := Asked(a, p, h.table.subnet, times.up, probe);
      h.gate.Allow(Who(h, a.end), q, times.host).1 && !RoomCheck.IsProbe(q)
    requires Verdicts.PortOpen(b.pump.Synced().filter, ports.proto, ports.dport)
    ensures var q, subnet := Asked(a, p, h.table.subnet, times.up, probe), h.table.subnet;
      && a.pump.Up(p, Some(a.address), subnet, times.up, probe).1 == Some(q)
      && Endpoints(q).Some? && Endpoints(q).value.0 == a.address
      && Sends(a.end, q) && SentToAll(h, Posted(h, a.end, q, times.host), Who(h, a.end), q) && Takes(b.end, q)
      && b.pump.Down(q, Some(b.address), subnet, times.down).1 == Pump.Handed(q)
  {
    hide Host.State.Valid, RoomSubnet.Valid, RoomSubnet.IsBroadcast, Pump.State.Up, Pump.State.Down, Asked, Sends,
         Takes, SentToAll, Posted, Gates.Gate.Allow, Verdicts.BroadcastOpen, Verdicts.MeantForRoom;
    var q, subnet := Asked(a, p, h.table.subnet, times.up, probe), h.table.subnet;
    SearchGoesOut(h, a, p, ports, times.up, probe);
    BroadcastPasses(h, a.end, a.address, Endpoints(q).value.1, q, times.host);
    EndTakesAll(b.end, subnet, q);
    PlainMember(h, b.end, b.address);
    SearchHanded(b.pump, q, b.address, subnet, times.down, ports);
  }

  lemma SearchHanded(s: Pump.State, q: seq<Byte>, own: Addr, subnet: RoomSubnet, now: nat, ports: Ports)
    requires subnet.Valid() && WellFormed(q) && Endpoints(q).Some? && Transport(q) == Some(ports)
    requires subnet.IsBroadcast(Endpoints(q).value.1) && Endpoints(q).value.1 != own && !RoomCheck.IsProbe(q)
    requires Verdicts.PortOpen(s.Synced().filter, ports.proto, ports.dport)
    ensures s.Down(q, Some(own), subnet, now).1 == Pump.Handed(q)
  {
    hide RoomSubnet.Valid, RoomSubnet.IsBroadcast, Pump.State.Down, Filter.State.Inbound, RoomCheck.IsProbe, Num,
         HostSize, Filter.Merged;
    TransportProto(q);
    Verdicts.InboundAllows(s.Synced().filter, q, now);
    ReachesAll(subnet, Endpoints(q).value.1);
    Verdicts.HandedWhen(s, q, Some(own), subnet, now);
  }

  /** Both tables of `a` have room for the search, and until `later` nobody else takes what it opens. */
  predicate SearchNoted(a: Machine, p: seq<Byte>, subnet: RoomSubnet, ports: Ports, now: nat, probe: bool,
                        es: seq<Event>, member: Addr, later: nat)
    requires subnet.Valid()
  {
    var (flow, search) := (Filter.FlowKey(ports.proto, ports.sport, member, ports.dport),
                           Rebinder.SearchKey(ports.proto, ports.sport, ports.dport));
    && a.pump.filter.Fits(flow.(far := Filter.ANY_MEMBER), now) && RoomFor(a.pump.rebinder.searches, search, now)
    && PumpReplies.Clear(a.pump.rebinder.flows, flow, a.local, now)
    && Unshared(a.pump.Up(p, Some(a.address), subnet, now, probe).0, es, a.address, subnet, {flow}, {search}, a.local)
    && Within(es, now, Filter.FLOW_IDLE) && now <= later < now + Filter.FLOW_IDLE
  }

  /**
   And found.  What any member's program answers to a search, less than FLOW_IDLE later, reaches the
   program that searched, through its own pump, the host and the searcher's.
   */
  lemma {:induction false} SearchAnswered(h: Host.State, a: Machine, p: seq<Byte>, ports: Ports, now: nat,
                                          probe: bool, es: seq<Event>, h': Host.State, a': Machine, b: Machine,
                                          r: seq<Byte>, times: Times, probe': bool)
    requires h.table.subnet.Valid() && Asks(h, a, p, ports) && a.local != a.address
    requires h'.Valid() && h'.table.subnet == h.table.subnet && h'.gate.limit.Valid() && h'.chatGate.limit.Valid()
    requires SearchNoted(a, p, h.table.subnet, ports, now, probe, es, b.address, times.down)
    requires var sending := a.pump.Up(p, Some(a.address), h.table.subnet, now, probe).0;
      a' == a.(end := a'.end, pump := PumpLaws.Run(sending, es, a.address, h.table.subnet))
    requires Travels(h', b, a', r, Mirrored(ports))
    ensures Arrives(h', b, a', r, times, probe')
  {
    hide Host.State.Valid, RoomSubnet.Valid, RoomSubnet.IsBroadcast, RoomSubnet.IsPseudoBroadcast, SeatedAt, Passes,
         Rewritten, Pump.State.Up, Pump.State.Down, Who, Verdicts.BroadcastOpen, Verdicts.MeantForRoom, Unshared,
         PumpReplies.Clear, Filter.State.Fits, RoomFor;
    var q, subnet := Rewritten(r, Src, b.address), h.table.subnet;
    PlainMember(h', a'.end, a'.address);
    Leaves(b, r, subnet, times.up, probe', a'.address, Mirrored(ports));
    UnicastPasses(h', b.end, a'.end, b.address, a'.address, q, times.host);
    PumpReplies.SearchRoundTrip(a.pump, p, a.address, subnet, now, probe, a.local, ports, es, b.address, q, times.down);
  }
}
