/**
 What the filter, the translator and the pump decide (`lan_filter.rs`, `lan_rebind.rs`,
 `lan_pump.rs`), told from the bytes of a packet, port numbers, addresses and times alone.
 */
module Verdicts {
  import opened Wire
  import opened Ipv4
  import opened Subnet
  import opened Rewrite
  import opened RewriteLaws
  import Filter
  import Pump
  import QuotedLaws
  import Rebinder
  import RoomCheck

  // ---------------------------------------------------------------- ports

  /** Ports an operating system broadcasts on, whatever is installed. */
  predicate Noise(port: U16) {
    || port in {53, 67, 68, 123, 137, 138, 139, 445, 1900, 3702, 5353, 5355}
    || 27031 <= port <= 27036
  }

  /** Ports a player's click may open: none below 1024, no noise, no remote access and no database. */
  predicate Clickable(port: U16) {
    && 1024 <= port && !Noise(port) && !(5900 <= port <= 5903)
    && port !in {1433, 1434, 1521, 2049, 2375, 2376, 3306, 3389, 5432, 5985, 5986, 6379, 9200, 11211, 27017}
  }

  /** Open to the room: the pack opens everything, or lists it; or the switch is on and a click could open it. */
  predicate PortOpen(f: Filter.State, proto: LanProto, port: U16) {
    || f.policy.any || Filter.LanPort(proto, port) in f.policy.ports
    || (f.anyHigh && Clickable(port))
  }

  /** May be broadcast to: noise only if the pack lists it, anything else if it is open. */
  predicate BroadcastOpen(f: Filter.State, proto: LanProto, port: U16) {
    if Noise(port) then Filter.LanPort(proto, port) in f.policy.ports else PortOpen(f, proto, port)
  }

  // ---------------------------------------------------------------- the filter

  /** UDP or TCP, and the piece that holds the ports. */
  predicate HasPorts(p: seq<Byte>)
    requires |p| >= 20
  {
    p[9] in {6, 17} && Word(p, 6) % 0x2000 == 0
  }

  /** Its first four bytes of transport, if they are there. */
  predicate PortsAre(p: seq<Byte>, proto: LanProto, sport: U16, dport: U16)
    requires |p| >= 20
  {
    var ihl := p[0] as int % 16 * 4;
    && HasPorts(p) && |p| >= ihl + 4 && proto == (if p[9] == 6 then Tcp else Udp)
    && sport == Word(p, ihl) && dport == Word(p, ihl + 2)
  }

  /**
   Out: a unicast always; a broadcast exactly if its port may be broadcast to, or, where there are
   no ports to read, if the pack opens everything or it is a later piece of UDP or TCP.
   */
  lemma {:induction false} OutboundAllows(f: Filter.State, p: seq<Byte>, subnet: RoomSubnet, now: nat)
    requires subnet.Valid() && Endpoints(p).Some? && |p| >= HeaderLen(p) && (HasPorts(p) ==> |p| >= HeaderLen(p) + 4)
    ensures f.Outbound(p, subnet, now).1 <==>
              || !subnet.IsBroadcast(Endpoints(p).value.1)
              || (if HasPorts(p)
                  then BroadcastOpen(f, if p[9] == 6 then Tcp else Udp, Word(p, HeaderLen(p) + 2))
                  else f.policy.any || p[9] in {6, 17})
    ensures !f.Outbound(p, subnet, now).1 ==> f.Outbound(p, subnet, now).0 == f
  {
  }

  /** What cannot be read is sent nowhere and let in nowhere. */
  lemma {:induction false} Unreadable(f: Filter.State, p: seq<Byte>, subnet: RoomSubnet, now: nat)
    requires subnet.Valid()
    requires Endpoints(p).None? || |p| < HeaderLen(p) || (HasPorts(p) && |p| < HeaderLen(p) + 4)
    ensures f.Outbound(p, subnet, now) == (f, false) && f.Inbound(p, now) == (f, false)
  {
  }

  /** A flow noted less than 180 seconds ago. */
  predicate NotedFlow(f: Filter.State, proto: LanProto, own: U16, far: Addr, farPort: U16, now: nat) {
    var key := Filter.FlowKey(proto, own, far, farPort);
    key in f.flows && now < f.flows[key] + 180_000
  }

  /**
   In: ICMP always; a piece with ports exactly if its port is open, or it mirrors a flow to its
   sender, or to anyone, noted less than 180 seconds ago; a later piece within 30 seconds of its
   datagram's first; another protocol if the pack opens everything.
   */
  lemma {:induction false} InboundAllows(f: Filter.State, p: seq<Byte>, now: nat)
    requires Endpoints(p).Some? && |p| >= HeaderLen(p) && (HasPorts(p) ==> |p| >= HeaderLen(p) + 4)
    ensures var (src, ihl) := (Endpoints(p).value.0, HeaderLen(p));
      f.Inbound(p, now).1 <==>
        if p[9] == 1 then true
        else if Word(p, 6) % 0x2000 != 0 then
          var key := Filter.FragmentKey(src, Word(p, 4), p[9]);
          key in f.fragments && now < f.fragments[key] + 30_000
        else if p[9] in {6, 17} then
          var (proto, sport, dport) := (if p[9] == 6 then Tcp else Udp, Word(p, ihl), Word(p, ihl + 2));
          || PortOpen(f, proto, dport) || NotedFlow(f, proto, dport, src, sport, now)
          || NotedFlow(f, proto, dport, Addr(0, 0, 0, 0), sport, now)
        else f.policy.any
  {
  }

  /** With everything open and nothing listed, the system's own broadcasts still stay here: NetBIOS, SSDP, mDNS. */
  lemma NoiseStays(f: Filter.State, p: seq<Byte>, subnet: RoomSubnet, now: nat, sport: U16, dport: U16)
    requires subnet.Valid() && Endpoints(p).Some? && subnet.IsBroadcast(Endpoints(p).value.1)
    requires PortsAre(p, Udp, sport, dport) && dport in {137, 138, 1900, 5353}
    requires f.policy == Filter.Policy([], true)
    ensures f.Outbound(p, subnet, now) == (f, false)
  {
    OutboundAllows(f, p, subnet, now);
  }

  // ---------------------------------------------------------------- the translator, out

  /** A broadcast of another network this machine is on, or an old game's inside the room. */
  predicate MeantForRoom(r: Rebinder.State, dst: Addr, subnet: RoomSubnet)
    requires subnet.Valid()
  {
    || dst in r.survey.broadcasts
    || (Num(subnet.prefix) <= Num(dst) < Num(subnet.prefix) + HostSize(subnet.prefixLen) - 1
        && (dst.d == 0 || dst.d == 255))
  }

  /**
   What leaves is addressed to the room's broadcast if that is what was meant, else to whom it was;
   and comes from the room address if another of this machine's addresses sent it, else from whom
   it did.  What was edited is reported.
   */
  lemma {:induction false} OutboundAddresses(r: Rebinder.State, p: seq<Byte>, room: Addr, subnet: RoomSubnet,
                                             now: nat, probe: bool)
    requires subnet.Valid() && WellFormed(p) && Endpoints(p).Some?
    ensures var ((src, dst), (_, q, done)) := (Endpoints(p).value, r.Outbound(p, room, subnet, now, probe));
      && Endpoints(q) == Some((if src in r.survey.locals then room else src,
                               if MeantForRoom(r, dst, subnet) then subnet.Broadcast() else dst))
      && done.source == (src in r.survey.locals && src != room)
      && done.broadcast == (MeantForRoom(r, dst, subnet) && dst != subnet.Broadcast())
  {
    hide Rewritten, RoomSubnet.Valid, RoomSubnet.IsPseudoBroadcast, RoomSubnet.IsBroadcast, Num, HostSize,
         Rebinder.State.Opened, Transport;
    var (src, dst) := Endpoints(p).value;
    OldBroadcastIs(subnet, dst);
    if r.Redirects(dst, subnet) {
      RewriteKeepsIpHeader(p, Dst, subnet.Broadcast());
      EndsKept(p, Dst, subnet.Broadcast());
    }
    var q := r.Redirected(p, subnet);
    RewriteKeepsIpHeader(q, Src, room);
    EndsKept(q, Src, room);
  }

  lemma EndsKept(p: seq<Byte>, field: Field, to: Addr)
    requires WellFormed(p) && Endpoints(p).Some?
    ensures var q := Rewritten(p, field, to);
      && WellFormed(q)
      && Endpoints(q) == Some((if field == Src then to else Endpoints(p).value.0,
                               if field == Src then Endpoints(p).value.1 else to))
  {
    hide Rewritten;
    RewriteKeepsIpHeader(p, field, to);
    SliceIndex(Rewritten(p, field, to), p, 0, 10);
  }

  /** A packet shorter than its header says is not touched. */
  lemma {:induction false} ShortLeftAlone(r: Rebinder.State, p: seq<Byte>, room: Addr, subnet: RoomSubnet, now: nat,
                                          probe: bool)
    requires subnet.Valid() && (Endpoints(p).None? || |p| < HeaderLen(p))
    ensures r.Outbound(p, room, subnet, now, probe) == (r, p, Rebinder.Done(false, false))
  {
    hide RoomSubnet.Valid, RoomSubnet.IsPseudoBroadcast, RoomSubnet.IsBroadcast, RoomSubnet.Broadcast,
         RewrittenHeader, RewrittenBody;
  }

  // ---------------------------------------------------------------- the translator, in

  /** Noted less than 300 seconds ago. */
  predicate Noted<K(!new)>(m: map<K, Rebinder.Flow>, key: K, now: nat) { key in m && now < m[key].seen + 300_000 }

  /**
   Where a packet for one of this machine's ports goes: where the flow with that peer came from, else
   where a search on that port did, both noted less than 300 seconds ago, else where the survey
   found the port.
   */
  lemma {:induction false} TargetDecided(r: Rebinder.State, proto: LanProto, port: U16, peer: Addr, peerPort: U16,
                                         now: nat)
    ensures var (flow, search, target) := (Filter.FlowKey(proto, port, peer, peerPort),
                                           Rebinder.SearchKey(proto, port, peerPort),
                                           r.TargetOf(proto, port, peer, peerPort, now).1);
      && (Noted(r.flows, flow, now) ==> target == Some(Rebinder.Target(r.flows[flow].to, r.flows[flow].pinned)))
      && (!Noted(r.flows, flow, now) && Noted(r.searches, search, now) ==>
            target == Some(Rebinder.Target(r.searches[search].to, r.searches[search].pinned)))
      && (!Noted(r.flows, flow, now) && !Noted(r.searches, search, now) ==>
            target == Rebinder.ReboundTo(r.survey.rebound, proto, port))
  {
  }

  /** What was used is noted as used now, and nothing else changes. */
  lemma {:induction false} TargetNoted(r: Rebinder.State, proto: LanProto, port: U16, peer: Addr, peerPort: U16,
                                       now: nat)
    ensures var (flow, search, after) := (Filter.FlowKey(proto, port, peer, peerPort),
                                          Rebinder.SearchKey(proto, port, peerPort),
                                          r.TargetOf(proto, port, peer, peerPort, now).0);
      after == if Noted(r.flows, flow, now) then r.(flows := r.flows[flow := r.flows[flow].(seen := now)])
               else if Noted(r.searches, search, now) then
                 r.(searches := r.searches[search := r.searches[search].(seen := now)])
               else r
  {
  }

  /** A later piece follows its datagram's first, noted less than 5 seconds ago; and with it only. */
  lemma {:induction false} LaterPieceDecided(r: Rebinder.State, p: seq<Byte>, now: nat)
    requires Endpoints(p).Some? && Word(p, 6) % 0x2000 != 0
    ensures var key := Filter.FragmentKey(AddrAt(p, 12), Word(p, 4), p[9]);
      r.Lookup(p, now) == (r, if key in r.fragments && now < r.fragments[key].at + 5_000
                              then Some(r.fragments[key].target) else None)
  {
  }

  /** A first piece is noted with its target; and what was noted 5 seconds ago or more is forgotten then. */
  lemma {:induction false} FirstPieceNoted(r: Rebinder.State, p: seq<Byte>, target: Rebinder.Target, now: nat,
                                           key: Filter.FragmentKey)
    requires Endpoints(p).Some? && Word(p, 6) % 0x4000 == 0x2000
    ensures var (first, after) := (Filter.FragmentKey(AddrAt(p, 12), Word(p, 4), p[9]),
                                   r.Noted(p, target, now).fragments);
      && (key in after <==> key == first || (key in r.fragments && now < r.fragments[key].at + 5_000))
      && (key in after ==>
            after[key] == if key == first then Rebinder.Vouched(target, now) else r.fragments[key])
  {
  }

  // ---------------------------------------------------------------- the pump, down

  /** Addressed to this member or to everyone. */
  predicate ForMember(dst: Addr, own: Option<Addr>, subnet: RoomSubnet)
    requires subnet.Valid()
  {
    || own == Some(dst) || dst == Addr(255, 255, 255, 255) || 224 <= dst.a <= 239
    || Num(dst) == Num(subnet.prefix) + HostSize(subnet.prefixLen) - 1
  }

  /** What the room delivers is dropped exactly if the filter refuses it, or it is for someone else. */
  lemma {:induction false} DroppedWhen(s: Pump.State, p: seq<Byte>, own: Option<Addr>, subnet: RoomSubnet, now: nat)
    requires subnet.Valid()
    ensures s.Down(p, own, subnet, now).1.Dropped? <==>
              || !s.Synced().filter.Inbound(p, now).1
              || Endpoints(p).None? || !ForMember(Endpoints(p).value.1, own, subnet)
  {
    hide RoomSubnet.Valid, RoomSubnet.IsBroadcast, Filter.State.Inbound, Filter.Merged, Rebinder.State.Inbound,
         RoomCheck.IsProbe, RoomCheck.Answer;
    if Endpoints(p).Some? {
      ReachesAll(subnet, Endpoints(p).value.1);
    }
  }

  /** What is not dropped, and is no probe, is handed over; as it came, unless it is for this member alone. */
  lemma {:induction false} HandedWhen(s: Pump.State, p: seq<Byte>, own: Option<Addr>, subnet: RoomSubnet, now: nat)
    requires subnet.Valid() && s.Synced().filter.Inbound(p, now).1 && !RoomCheck.IsProbe(p)
    requires Endpoints(p).Some? && ForMember(Endpoints(p).value.1, own, subnet)
    ensures var outcome := s.Down(p, own, subnet, now).1;
      outcome.Handed? && (own != Some(Endpoints(p).value.1) ==> outcome.packet == p)
  {
    hide RoomSubnet.Valid, RoomSubnet.IsBroadcast, Filter.State.Inbound, Filter.Merged, RoomCheck.IsProbe,
         RoomCheck.Answer, Rebinder.State.Inbound, Num, HostSize;
    ReachesAll(subnet, Endpoints(p).value.1);
    if own.Some? && own.value != Endpoints(p).value.1 {
      NotTranslated(s.rebinder, p, own.value, now);
    }
  }

  lemma NotTranslated(r: Rebinder.State, p: seq<Byte>, room: Addr, now: nat)
    requires Endpoints(p).Some? && Endpoints(p).value.1 != room
    ensures r.Inbound(p, room, now) == (r, None)
  {
    hide Rebinder.State.Lookup, Rebinder.State.Noted, Rebinder.Delivered;
  }

  /** Ports a player opens are open to the next packet, beside the pack's own; and closed again likewise. */
  lemma {:induction false} OpenAfterChange(s: Pump.State, extra: Filter.Extra, proto: LanProto, port: U16)
    requires extra.generation != s.generation
    ensures var f := s.(extra := extra).Synced().filter;
      f.Admits(proto, port) <==>
        || s.base.any || Filter.LanPort(proto, port) in s.base.ports || Filter.LanPort(proto, port) in extra.ports
        || (extra.anyHigh && Clickable(port))
  {
    MergedHas(s.base, extra.ports, Filter.LanPort(proto, port));
  }

  lemma {:induction false} MergedHas(base: Filter.Policy, extra: seq<Filter.LanPort>, port: Filter.LanPort)
    ensures Filter.Merged(base, extra).any == base.any
    ensures port in Filter.Merged(base, extra).ports <==> port in base.ports || port in extra
  {
    if extra != [] {
      var init := extra[..|extra| - 1];
      MergedHas(base, init, port);
      assert extra == init + [extra[|extra| - 1]];
    }
  }

  // ---------------------------------------------------------------- the pump, up

  /** An ICMP "port unreachable" about a UDP datagram to `port` at `own`. */
  predicate Unreachable(q: seq<Byte>, own: Addr, port: U16) {
    && Endpoints(q).Some? && q[9] == 1 && Word(q, 6) % 0x2000 == 0
    && var at := q[0] as int % 16 * 4;
       && |q| >= at + 8 && q[at] == 3 && q[at + 1] == 3
       && var inner := q[at + 8..];
          && Endpoints(inner).Some? && Endpoints(inner).value.1 == own
          && inner[9] == 17 && Word(inner, 6) % 0x2000 == 0
          && var to := inner[0] as int % 16 * 4; |inner| >= to + 8 && port == Word(inner, to + 2)
  }

  /** UDP to one of the system's ports, for everyone. */
  predicate NoiseForAll(q: seq<Byte>, subnet: RoomSubnet)
    requires subnet.Valid()
  {
    && Endpoints(q).Some? && subnet.IsBroadcast(Endpoints(q).value.1) && q[9] == 17 && Word(q, 6) % 0x2000 == 0
    && var at := q[0] as int % 16 * 4; |q| >= at + 4 && Noise(Word(q, at + 2))
  }

  /**
   What the machine sends leaves translated, or not at all: held back if it still comes from another
   address, if it tells a member that an open port is closed, if it is the system's noise brought
   over from another network, or if the filter refuses it; and for nothing else.
   */
  lemma {:induction false} SentWhen(s: Pump.State, p: seq<Byte>, own: Addr, subnet: RoomSubnet, now: nat, probe: bool)
    requires subnet.Valid()
    ensures var ((_, q, done), f) := (s.rebinder.Outbound(p, own, subnet, now, probe), s.Synced().filter);
      s.Up(p, Some(own), subnet, now, probe).1 ==
        if || (Endpoints(q).Some? && Endpoints(q).value.0 != own)
           || (exists port: U16 :: Endpoints(q).Some? && Unreachable(q, own, port) && f.Admits(Udp, port))
           || (done.source && NoiseForAll(q, subnet))
           || !f.Outbound(q, subnet, now).1
        then None else Some(q)
  {
    hide RoomSubnet.Valid, RoomSubnet.IsBroadcast, Filter.State.Outbound, Filter.State.Admits, Filter.Merged,
         Rebinder.State.Outbound, Pump.OwnPortUnreachable, Pump.IsChatterBroadcast;
    var (r, q, done) := s.rebinder.Outbound(p, own, subnet, now, probe);
    assert s.(rebinder := r).Synced() == s.Synced().(rebinder := r);
    UnreachableIs(q, own);
    NoiseIs(q, subnet);
  }

  lemma UnreachableIs(q: seq<Byte>, own: Addr)
    ensures Endpoints(q).Some? && Endpoints(q).value.0 == own ==>
              forall port: U16 :: Pump.OwnPortUnreachable(q, own) == Some(port) <==> Unreachable(q, own, port)
    ensures Endpoints(q).None? || Endpoints(q).value.0 != own ==> Pump.OwnPortUnreachable(q, own).None?
  {
  }

  lemma NoiseIs(q: seq<Byte>, subnet: RoomSubnet)
    requires subnet.Valid()
    ensures Pump.IsChatterBroadcast(q, subnet) <==> NoiseForAll(q, subnet)
  {
  }

  /** Without an address the translator is not asked, and nothing is held back but by the filter. */
  lemma {:induction false} SentUnseated(s: Pump.State, p: seq<Byte>, subnet: RoomSubnet, now: nat, probe: bool)
    requires subnet.Valid()
    ensures s.Up(p, None, subnet, now, probe).1
         == if s.Synced().filter.Outbound(p, subnet, now).1 then Some(p) else None
  {
  }

  /** The ICMP errors whose quote is translated: unreachable, quench, redirect, time exceeded and parameter problem. */
  lemma ErrorsAre(p: seq<Byte>)
    ensures QuotedLaws.IsError(p) <==>
              && Endpoints(p).Some? && |p| >= HeaderLen(p) + 28 && p[9] == 1 && Word(p, 6) % 0x2000 == 0
              && p[HeaderLen(p)] in {3, 4, 5, 11, 12}
  {
  }

  /** And those whose quote says which flow they are about, by what it quotes of UDP or TCP. */
  lemma QuotesFlow(p: seq<Byte>)
    requires Endpoints(p).Some?
    ensures match QuotedTransport(p)
      case None => true
      case Some(q) =>
        var at := HeaderLen(p) + 8;
        && |p| >= at && p[at - 8] in {3, 4, 5, 11, 12} && Endpoints(p[at..]).Some?
        && q.dst == Endpoints(p[at..]).value.1 && PortsAre(p[at..], q.ports.proto, q.ports.sport, q.ports.dport)
    ensures |p| >= HeaderLen(p) + 8 && p[HeaderLen(p)] in {3, 4, 5, 11, 12} ==>
              var inner := p[HeaderLen(p) + 8..];
              QuotedTransport(p).None? <==>
                Endpoints(inner).None? || !HasPorts(inner) || |inner| < HeaderLen(inner) + 4
  {
  }

  /** A probe that is let in is answered, by whoever has an address, unless it is its own; it is never handed over. */
  lemma {:induction false} ProbeAnswered(s: Pump.State, p: seq<Byte>, own: Option<Addr>, subnet: RoomSubnet, now: nat)
    requires subnet.Valid() && s.Synced().filter.Inbound(p, now).1 && RoomCheck.IsProbe(p)
    requires ForMember(Endpoints(p).value.1, own, subnet)
    ensures var outcome := s.Down(p, own, subnet, now).1;
      && outcome.Answered? && (outcome.reply.Some? <==> own.Some? && Endpoints(p).value.0 != own.value)
      && (outcome.reply.Some? ==>
            && Endpoints(outcome.reply.value) == Some((own.value, Endpoints(p).value.0))
            && RoomCheck.Parse(outcome.reply.value).Some?
            && RoomCheck.Parse(outcome.reply.value).value.nonce == RoomCheck.Parse(p).value.nonce)
  {
    hide RoomSubnet.Valid, RoomSubnet.IsBroadcast, Filter.State.Inbound, Filter.Merged, RoomCheck.UdpPacket, Num,
         HostSize, Rebinder.State.Inbound;
    ReachesAll(subnet, Endpoints(p).value.1);
    if own.Some? {
      RoomCheck.AnswerMirrors(p, own.value);
    }
  }

  // ---------------------------------------------------------------- the lists

  predicate Once(ports: seq<Filter.LanPort>) { forall i, j :: 0 <= i < j < |ports| ==> ports[i] != ports[j] }

  /** The ports a player allows are kept once each, in the order first asked for. */
  lemma {:induction false} KeptOnce(ports: seq<Filter.LanPort>)
    ensures var kept := Filter.Distinct(ports);
      && Once(kept)
      && (forall p :: p in kept <==> p in ports)
  {
    if ports != [] {
      var init, port := ports[..|ports| - 1], ports[|ports| - 1];
      KeptOnce(init);
      assert ports == init + [port];
      if port !in Filter.Distinct(init) {
        OneMore(Filter.Distinct(init), port);
      }
    }
  }

  /** And none is added to the pack's that it lists already, or that was added. */
  lemma {:induction false} AddedOnce(base: Filter.Policy, extra: seq<Filter.LanPort>)
    requires Once(base.ports)
    ensures base.ports <= Filter.Merged(base, extra).ports && Once(Filter.Merged(base, extra).ports)
  {
    hide Once;
    if extra != [] {
      var before, port := Filter.Merged(base, extra[..|extra| - 1]).ports, extra[|extra| - 1];
      AddedOnce(base, extra[..|extra| - 1]);
      if port !in before {
        OneMore(before, port);
      }
    }
  }

  lemma OneMore(before: seq<Filter.LanPort>, port: Filter.LanPort)
    requires Once(before) && port !in before
    ensures Once(before + [port])
  {
    var ports := before + [port];
    forall i, j | 0 <= i < j < |ports| ensures ports[i] != ports[j] {
      assert ports[i] == before[i] && before[i] in before;
    }
  }

  /** A first piece let in vouches for its datagram; what was 30 seconds old is forgotten then. */
  lemma {:induction false} FirstPieceVouches(f: Filter.State, p: seq<Byte>, now: nat, key: Filter.FragmentKey)
    requires Endpoints(p).Some? && |p| >= HeaderLen(p) + 4 && p[9] in {6, 17} && Word(p, 6) % 0x4000 == 0x2000
    requires f.Inbound(p, now).1
    ensures var (first, after) := (Filter.FragmentKey(AddrAt(p, 12), Word(p, 4), p[9]), f.Inbound(p, now).0.fragments);
      && (key in after <==> key == first || (key in f.fragments && now < f.fragments[key] + 30_000))
      && (key in after ==> after[key] == if key == first then now else f.fragments[key])
  {
    var (sport, dport) := Filter.Parse(p).value.ports.value;
    PortsKeepPieces(f, ProtoOf(p[9]).value, AddrAt(p, 12), sport, dport, now);
  }

  lemma PortsKeepPieces(f: Filter.State, proto: LanProto, src: Addr, sport: U16, dport: U16, now: nat)
    ensures f.InboundPorts(proto, src, sport, dport, now).0.fragments == f.fragments
  {
  }
}
