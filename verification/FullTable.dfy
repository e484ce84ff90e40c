/**
 What a full translation table costs, in a run that gets there: a flow the program is still
 sending on loses its way back, because only the filter's table refreshes what it knows.
 */
module FullTable {
  import opened Wire
  import opened Ipv4
  import opened Subnet
  import opened RewriteLaws
  import opened Pump
  import opened PumpLaws
  import Filter
  import FilterLaws
  import Rebinder
  import RoomCheck

  const PORT: U16 := 4000
  const FIRST_PORT: U16 := 1024

  /** A program's address on another network, the member it plays with, and a pack's policy, which opens something. */
  datatype Game = Game(local: Addr, own: Addr, peer: Addr, subnet: RoomSubnet, policy: Filter.Policy) {
    predicate Ok() {
      && subnet.Valid() && local != own && !subnet.IsBroadcast(peer) && !subnet.IsPseudoBroadcast(peer)
      && (policy.any || policy.ports != []) && forall port :: port in policy.ports ==> port.port != 0
    }

    function Key(port: U16): Filter.FlowKey { Filter.FlowKey(Udp, port, peer, PORT) }

    /** What the program sends from one of its ports. */
    function Packet(port: U16): seq<Byte> { RoomCheck.UdpPacket(local, peer, port, PORT, []) }

    /** The flows of the first `n` ports, from FIRST_PORT on. */
    function Keys(n: nat): set<Filter.FlowKey>
      requires n <= 0x1_0000 - FIRST_PORT
    {
      if n == 0 then {} else Keys(n - 1) + {Key(FIRST_PORT + n - 1)}
    }
  }

  lemma {:induction false} KeysAre(g: Game, n: nat)
    requires n <= 0x1_0000 - FIRST_PORT
    ensures |g.Keys(n)| == n && forall port: U16 :: g.Key(port) in g.Keys(n) <==> FIRST_PORT <= port < FIRST_PORT + n
  {
    if n > 0 {
      KeysAre(g, n - 1);
    }
  }

  lemma GamePacket(s: State, g: Game, port: U16)
    requires g.Ok() && s.rebinder.survey == Rebinder.Survey([g.local], [], [])
    ensures FromProgram(s, g.Packet(port), g.own, g.subnet, g.local, g.peer, Ports(Udp, port, PORT))
    ensures !s.rebinder.Redirects(g.peer, g.subnet) && !g.subnet.IsBroadcast(g.peer)
  {
    hide RoomSubnet.Valid, RoomSubnet.IsBroadcast, RoomSubnet.IsPseudoBroadcast, RoomCheck.UdpPacket, HasSegmentSum;
    RoomCheck.BuiltShape(g.local, g.peer, port, PORT, []);
    RoomCheck.BuiltDatagram(g.local, g.peer, port, PORT, []);
  }

  /** After one packet from each of the first `n` ports, at time 0. */
  function Sent(g: Game, n: nat): State
    requires g.Ok() && n <= Rebinder.MAX_FLOWS
  {
    if n == 0 then
      State(Filter.State(g.policy, false, map[], map[]),
            Rebinder.State(Rebinder.Survey([g.local], [], []), map[], map[], map[]),
            g.policy, 0, Filter.Extra([], false, 0))
    else Sent(g, n - 1).Up(g.Packet(FIRST_PORT + n - 1), Some(g.own), g.subnet, 0, false).0
  }

  predicate AllAtZero(s: State, g: Game, n: nat)
    requires n <= 0x1_0000 - FIRST_PORT
  {
    && s.filter.flows.Keys == g.Keys(n) && s.rebinder.flows.Keys == g.Keys(n)
    && (forall k :: k in s.filter.flows ==> s.filter.flows[k] == 0)
    && (forall k :: k in s.rebinder.flows ==> s.rebinder.flows[k].to == g.local && s.rebinder.flows[k].seen == 0)
    && s.rebinder.survey == Rebinder.Survey([g.local], [], []) && s.rebinder.searches == map[]
    && s.filter.policy == g.policy && !s.filter.anyHigh && s.extra.generation == s.generation
  }

  lemma {:induction false} SentFills(g: Game, n: nat)
    requires g.Ok() && n <= Rebinder.MAX_FLOWS
    ensures AllAtZero(Sent(g, n), g, n)
    ensures |Sent(g, n).filter.flows| == |Sent(g, n).rebinder.flows| == n
  {
    hide Game.Ok, Game.Packet, State.Up, AllAtZero;
    if n == 0 {
      NoneSent(g);
    } else {
      SentFills(g, n - 1);
      OneMoreSent(Sent(g, n - 1), g, n);
    }
    KeysAre(g, n);
    KeyCounts(Sent(g, n), g, n);
  }

  lemma {:induction false} NoneSent(g: Game)
    requires g.Ok()
    ensures AllAtZero(Sent(g, 0), g, 0)
  {
    hide Game.Ok;
  }

  lemma {:induction false} KeyCounts(s: State, g: Game, n: nat)
    requires n <= 0x1_0000 - FIRST_PORT && AllAtZero(s, g, n) && |g.Keys(n)| == n
    ensures |s.filter.flows| == |s.rebinder.flows| == n
  {
    assert |s.filter.flows.Keys| == |s.filter.flows| && |s.rebinder.flows.Keys| == |s.rebinder.flows|;
  }

  /** A packet on a flow of the game's, by what it does to both tables. */
  lemma GameUp(s: State, g: Game, port: U16, now: nat)
    requires g.Ok() && s.rebinder.survey == Rebinder.Survey([g.local], [], [])
    ensures var after := s.Up(g.Packet(port), Some(g.own), g.subnet, now, false).0;
      && after.filter == s.Synced().filter.Remembered(g.Key(port), now)
      && after.extra == s.extra && after.generation == s.extra.generation
      && after.rebinder.(flows := s.rebinder.flows) == s.rebinder
      && exists pinned :: after.rebinder.flows
           == Rebinder.Remember(s.rebinder.flows, g.Key(port), Rebinder.Flow(g.local, pinned, now), now)
  {
    hide RoomSubnet.Valid, RoomSubnet.IsBroadcast, RoomSubnet.IsPseudoBroadcast, FromProgram, Game.Packet, State.Up;
    GamePacket(s, g, port);
    UnicastTables(s, g.Packet(port), g.own, g.subnet, now, false, g.local, g.peer, Ports(Udp, port, PORT));
    var key, r := g.Key(port), s.rebinder;
    var known := if key in r.flows then Some(r.flows[key]) else None;
    assert r.Opened(Ports(Udp, port, PORT), g.local, g.peer, g.subnet, now, false).flows
        == Rebinder.Remember(r.flows, key, Rebinder.Flow(g.local, r.Pinned(known, Udp, g.local, false), now), now);
  }

  /** A flow new to both tables, and room in both. */
  lemma {:induction false} OneMoreFlow(s: State, after: State, g: Game, n: nat, pinned: bool)
    requires 0 < n <= Rebinder.MAX_FLOWS && AllAtZero(s, g, n - 1) && g.Key(FIRST_PORT + n - 1) !in g.Keys(n - 1)
    requires |s.filter.flows| == |s.rebinder.flows| == n - 1
    requires after.filter == s.filter.Remembered(g.Key(FIRST_PORT + n - 1), 0)
    requires after.rebinder.(flows := s.rebinder.flows) == s.rebinder
    requires after.rebinder.flows
          == Rebinder.Remember(s.rebinder.flows, g.Key(FIRST_PORT + n - 1), Rebinder.Flow(g.local, pinned, 0), 0)
    requires after.extra.generation == after.generation
    ensures AllAtZero(after, g, n)
  {
    var key := g.Key(FIRST_PORT + n - 1);
    assert after.filter.flows == s.filter.flows[key := 0];
    assert after.rebinder.flows == s.rebinder.flows[key := Rebinder.Flow(g.local, pinned, 0)];
    assert g.Keys(n) == g.Keys(n - 1) + {key};
  }

  lemma OneMoreSent(s: State, g: Game, n: nat)
    requires g.Ok() && 0 < n <= Rebinder.MAX_FLOWS && AllAtZero(s, g, n - 1)
    requires |s.filter.flows| == |s.rebinder.flows| == n - 1
    ensures AllAtZero(s.Up(g.Packet(FIRST_PORT + n - 1), Some(g.own), g.subnet, 0, false).0, g, n)
  {
    hide RoomSubnet.Valid, RoomSubnet.IsBroadcast, RoomSubnet.IsPseudoBroadcast, Game.Packet, State.Up, Filter.Merged,
         Rebinder.Remember, Filter.State.Remembered, Game.Keys;
    GameUp(s, g, FIRST_PORT + n - 1, 0);
    KeysAre(g, n - 1);
    var after := s.Up(g.Packet(FIRST_PORT + n - 1), Some(g.own), g.subnet, 0, false).0;
    var pinned :| after.rebinder.flows
                == Rebinder.Remember(s.rebinder.flows, g.Key(FIRST_PORT + n - 1), Rebinder.Flow(g.local, pinned, 0), 0);
    OneMoreFlow(s, after, g, n, pinned);
  }

  /** A full table, a flow in it, and the program sending on it again. */
  lemma SendingAgain(s: State, g: Game, port: U16, now: nat)
    requires g.Ok() && AllAtZero(s, g, Rebinder.MAX_FLOWS) && FIRST_PORT <= port < FIRST_PORT + Rebinder.MAX_FLOWS
    requires |s.rebinder.flows| == Rebinder.MAX_FLOWS
    ensures var again := s.Up(g.Packet(port), Some(g.own), g.subnet, now, false).0;
      again.rebinder == s.rebinder && again.filter == s.filter.(flows := s.filter.flows[g.Key(port) := now])
  {
    hide Game.Ok, Game.Packet, State.Up, Game.Keys;
    GameUp(s, g, port, now);
    KeysAre(g, Rebinder.MAX_FLOWS);
  }

  /**
   In a run the code allows, a reply the filter lets in is not translated: the program sent the
   packet it answers 110 seconds before, well within both windows, but on a flow the full table
   had last noted 310 seconds before.  It is handed over as it came, addressed to the room address.
   */
  lemma {:induction false} FullTableLosesReply(g: Game, port: U16, r: seq<Byte>)
    requires g.Ok() && FIRST_PORT <= port < FIRST_PORT + Rebinder.MAX_FLOWS
    requires Answers(r, g.own, g.peer, Ports(Udp, port, PORT))
    ensures var full := Sent(g, Rebinder.MAX_FLOWS);
      var again := full.Up(g.Packet(port), Some(g.own), g.subnet, 200_000, false).0;
      && |full.rebinder.flows| == Rebinder.MAX_FLOWS && g.Key(port) in full.rebinder.flows
      && again.Down(r, Some(g.own), g.subnet, 310_000).1 == Handed(r) && AddrAt(r, 16) == g.own
  {
    hide RoomSubnet.Valid, RoomSubnet.IsBroadcast, RoomSubnet.IsPseudoBroadcast, Game.Packet, Game.Keys, State.Up, Sent,
         Filter.Merged, RoomCheck.IsProbe, RoomCheck.Answer, Rebinder.Delivered, QuotedTransport, Filter.State.Inbound;
    var full := Sent(g, Rebinder.MAX_FLOWS);
    SentFills(g, Rebinder.MAX_FLOWS);
    KeysAre(g, Rebinder.MAX_FLOWS);
    SendingAgain(full, g, port, 200_000);
    var again := full.Up(g.Packet(port), Some(g.own), g.subnet, 200_000, false).0;
    MirrorKey(r, g.own, g.peer, Ports(Udp, port, PORT));
    FilterLaws.LiveIsAdmitted(again.Synced().filter, r, g.Key(port), 310_000);
    TransportProto(r);
    assert again.rebinder.TargetOf(Udp, port, g.peer, PORT, 310_000).1 == None;
    assert again.rebinder.Lookup(r, 310_000).1 == None;
  }
}
