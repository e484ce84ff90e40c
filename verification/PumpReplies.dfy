/**
 The other things a room brings back to a program: answers from any member to a search it
 broadcast, ICMP errors about what it sent, and the pieces of a fragmented answer.
 */
module PumpReplies {
  import opened Wire
  import opened Ipv4
  import opened Subnet
  import opened Rewrite
  import opened RewriteLaws
  import opened Pump
  import opened PumpLaws
  import opened FragmentLaws
  import Checksum
  import QuotedLaws
  import UndoLaws
  import Filter
  import FilterLaws
  import Rebinder
  import RoomCheck
  import opened Verdicts

  // ---------------------------------------------------------------- searches

  /** No other local address has `flow`, or it has been idle too long to matter. */
  predicate Clear<K(!new)>(m: map<K, Rebinder.Flow>, flow: K, to: Addr, t: nat) {
    flow in m && m[flow].to != to ==> m[flow].seen + Rebinder.FLOW_IDLE <= t
  }

  lemma RememberKeepsClear<K(!new)>(m: map<K, Rebinder.Flow>, key: K, to: Addr, t: nat,
                                    other: K, flow: Rebinder.Flow, now: nat)
    requires Clear(m, key, to, t) && (other == key ==> flow.to == to)
    ensures Clear(Rebinder.Remember(m, other, flow, now), key, to, t)
  {
  }

  lemma TargetKeepsClear(s: Rebinder.State, proto: LanProto, port: U16, peer: Addr, peerPort: U16, now: nat,
                         flow: Rebinder.FlowKey, to: Addr, t: nat)
    requires Clear(s.flows, flow, to, t) && t <= now
    ensures Clear(s.TargetOf(proto, port, peer, peerPort, now).0.flows, flow, to, t)
  {
  }

  lemma InboundKeepsClear(s: Rebinder.State, p: seq<Byte>, room: Addr, now: nat,
                          flow: Rebinder.FlowKey, to: Addr, t: nat)
    requires Clear(s.flows, flow, to, t) && t <= now
    ensures Clear(s.Inbound(p, room, now).0.flows, flow, to, t)
  {
    if Endpoints(p).Some? && Endpoints(p).value.1 == room && FragmentOffset(p) == 0 {
      if p[9] == PROTO_ICMP {
        if QuotedTransport(p).Some? {
          var q := QuotedTransport(p).value;
          TargetKeepsClear(s, q.ports.proto, q.ports.sport, q.dst, q.ports.dport, now, flow, to, t);
        }
      } else if Transport(p).Some? {
        var ports := Transport(p).value;
        TargetKeepsClear(s, ports.proto, ports.dport, Endpoints(p).value.0, ports.sport, now, flow, to, t);
      }
    }
  }

  lemma StepKeepsClear(s: State, e: Event, own: Addr, subnet: RoomSubnet, flow: Rebinder.FlowKey, to: Addr, t: nat)
    requires subnet.Valid() && t <= e.now && Clear(s.rebinder.flows, flow, to, t)
    requires e.Sent? ==> !Takes(OpeningOf(s.rebinder, e.p, own, subnet), subnet, {flow}, {}, to)
    ensures Clear(PumpLaws.Step(s, e, own, subnet).rebinder.flows, flow, to, t)
  {
    hide State.Up, State.Down, RoomSubnet.Valid, Rebinder.State.Outbound, Rebinder.State.Inbound, OpeningOf;
    match e
    case Sent(p, now, probe) =>
      UpTables(s, p, own, subnet, now, probe);
      OutboundTables(s.rebinder, p, own, subnet, now, probe);
      var o := OpeningOf(s.rebinder, p, own, subnet);
      if o.Some? && !subnet.IsBroadcast(o.value.dst) {
        var key, r := FlowOf(o.value), s.rebinder;
        var known := if key in r.flows then Some(r.flows[key]) else None;
        RememberKeepsClear(r.flows, flow, to, t, key,
                           Rebinder.Flow(o.value.src, r.Pinned(known, key.proto, o.value.src, probe), now), now);
      }
    case Received(p, now) =>
      DownTables(s, p, own, subnet, now);
      InboundKeepsClear(s.rebinder, p, own, now, flow, to, t);
    case _ =>
  }

  lemma {:induction false} RunKeepsClear(s: State, es: seq<Event>, own: Addr, subnet: RoomSubnet,
                                         flow: Rebinder.FlowKey, searches: set<Rebinder.SearchKey>, to: Addr, t: nat)
    requires subnet.Valid() && Within(es, t, Filter.FLOW_IDLE) && Clear(s.rebinder.flows, flow, to, t)
    requires Unshared(s, es, own, subnet, {flow}, searches, to)
    ensures Clear(PumpLaws.Run(s, es, own, subnet).rebinder.flows, flow, to, t)
    ensures Unshared(s, es, own, subnet, {}, searches, to)
    decreases |es|
  {
    if es != [] {
      StepKeepsClear(s, es[0], own, subnet, flow, to, t);
      RunKeepsClear(PumpLaws.Step(s, es[0], own, subnet), es[1..], own, subnet, flow, searches, to, t);
    }
  }

  /** A search a program broadcasts, to the room's broadcast or another network's. */
  predicate Searches(s: State, p: seq<Byte>, own: Addr, subnet: RoomSubnet, to: Addr, ports: Ports)
    requires subnet.Valid()
  {
    && WellFormed(p) && Endpoints(p).Some? && Transport(p) == Some(ports)
    && Endpoints(p).value.0 == to && to != own && to in s.rebinder.survey.locals
    && (subnet.IsBroadcast(Endpoints(p).value.1) || MeantForRoom(s.rebinder, Endpoints(p).value.1, subnet))
  }

  /** Where it goes: to the room's broadcast if that is what was meant, else to the one it named. */
  function Destination(s: State, p: seq<Byte>, subnet: RoomSubnet): Addr
    requires subnet.Valid() && Endpoints(p).Some?
  {
    var dst := Endpoints(p).value.1;
    if MeantForRoom(s.rebinder, dst, subnet) then subnet.Broadcast() else dst
  }

  /** The search as it leaves: to the room's broadcast, or the one it named, from the room address. */
  lemma RedirectedSearch(s: State, p: seq<Byte>, own: Addr, subnet: RoomSubnet, to: Addr, ports: Ports)
    requires subnet.Valid() && Searches(s, p, own, subnet, to, ports)
    ensures var q := s.rebinder.Redirected(p, subnet);
      && WellFormed(q) && Transport(q) == Some(ports) && Endpoints(q).Some?
      && Endpoints(q).value.0 == to && subnet.IsBroadcast(Endpoints(q).value.1)
      && Endpoints(q).value.1 == Destination(s, p, subnet)
  {
    OldBroadcastIs(subnet, Endpoints(p).value.1);
    if s.rebinder.Redirects(Endpoints(p).value.1, subnet) {
      RewriteKeepsIpHeader(p, Dst, subnet.Broadcast());
      ReadsAlike(p, Dst, subnet.Broadcast());
    }
  }

  /** What leaves is from the room address, and nothing the pump holds back. */
  lemma QuietSearch(q: seq<Byte>, own: Addr, subnet: RoomSubnet, ports: Ports)
    requires subnet.Valid() && WellFormed(q) && Transport(q) == Some(ports)
    requires ports.proto == Udp ==> !Noise(ports.dport)
    ensures var out := Rewritten(q, Src, own);
      && Endpoints(out).Some? && Endpoints(out).value.0 == own
      && OwnPortUnreachable(out, own).None? && !IsChatterBroadcast(out, subnet)
  {
    hide RoomSubnet.Valid, RoomSubnet.IsBroadcast, Rewritten, IpHeaderValid;
    RewriteKeepsIpHeader(q, Src, own);
    ReadsAlike(q, Src, own);
    TransportProto(q);
  }

  lemma SearchLeaves(s: State, p: seq<Byte>, own: Addr, subnet: RoomSubnet, now: nat, probe: bool, to: Addr,
                     ports: Ports)
    requires subnet.Valid() && Searches(s, p, own, subnet, to, ports)
    requires BroadcastOpen(s.Synced().filter, ports.proto, ports.dport)
    requires ports.proto == Udp ==> !Noise(ports.dport)
    requires s.filter.Fits(Filter.FlowKey(ports.proto, ports.sport, Filter.ANY_MEMBER, ports.dport), now)
    requires RoomFor(s.rebinder.searches, Rebinder.SearchKey(ports.proto, ports.sport, ports.dport), now)
    ensures var (after, sent) := s.Up(p, Some(own), subnet, now, probe);
      var any := Filter.FlowKey(ports.proto, ports.sport, Filter.ANY_MEMBER, ports.dport);
      && sent == Some(Rewritten(s.rebinder.Redirected(p, subnet), Src, own))
      && any in after.filter.flows && after.filter.flows[any] == now
      && Holds(after.rebinder.searches, Rebinder.SearchKey(ports.proto, ports.sport, ports.dport), to, now)
      && after.rebinder.flows == s.rebinder.flows
  {
    hide RoomSubnet.Valid, RoomSubnet.IsBroadcast, Rebinder.State.Outbound, Rebinder.State.Redirected, Rewritten,
         Filter.State.Outbound, Filter.Merged, OwnPortUnreachable, IsChatterBroadcast, Transport, RoomFor;
    RedirectedSearch(s, p, own, subnet, to, ports);
    SearchIsRemembered(s.rebinder, p, own, subnet, now, probe, to, ports);
    var q := s.rebinder.Redirected(p, subnet);
    SearchIsLetOut(s.Synced().filter, q, own, subnet, now, ports);
    QuietSearch(q, own, subnet, ports);
    var r := s.rebinder.Outbound(p, own, subnet, now, probe).0;
    assert s.(rebinder := r).Synced() == s.Synced().(rebinder := r);
  }

  lemma SearchIsRemembered(s: Rebinder.State, p: seq<Byte>, own: Addr, subnet: RoomSubnet, now: nat, probe: bool,
                           to: Addr, ports: Ports)
    requires subnet.Valid() && WellFormed(p) && Endpoints(p).Some? && Endpoints(p).value.0 == to
    requires to != own && to in s.survey.locals
    requires var q := s.Redirected(p, subnet);
      Endpoints(q).Some? && subnet.IsBroadcast(Endpoints(q).value.1) && Transport(q) == Some(ports)
    requires RoomFor(s.searches, Rebinder.SearchKey(ports.proto, ports.sport, ports.dport), now)
    ensures var (after, sent, _) := s.Outbound(p, own, subnet, now, probe);
      && sent == Rewritten(s.Redirected(p, subnet), Src, own)
      && Holds(after.searches, Rebinder.SearchKey(ports.proto, ports.sport, ports.dport), to, now)
      && after.flows == s.flows
  {
    OutboundTables(s, p, own, subnet, now, probe);
    var search := Rebinder.SearchKey(ports.proto, ports.sport, ports.dport);
    var known := if search in s.searches then Some(s.searches[search]) else None;
    RememberedWhen(s.searches, search,
                   Rebinder.Flow(to, s.Pinned(known, ports.proto, to, probe), now), now);
  }

  lemma SearchIsLetOut(f: Filter.State, q: seq<Byte>, own: Addr, subnet: RoomSubnet, now: nat, ports: Ports)
    requires subnet.Valid() && WellFormed(q) && Transport(q) == Some(ports)
    requires Endpoints(q).Some? && subnet.IsBroadcast(Endpoints(q).value.1)
    requires BroadcastOpen(f, ports.proto, ports.dport)
    requires f.Fits(Filter.FlowKey(ports.proto, ports.sport, Filter.ANY_MEMBER, ports.dport), now)
    ensures var (after, allowed) := f.Outbound(Rewritten(q, Src, own), subnet, now);
      var any := Filter.FlowKey(ports.proto, ports.sport, Filter.ANY_MEMBER, ports.dport);
      allowed && any in after.flows && after.flows[any] == now
  {
    hide RoomSubnet.Valid, RoomSubnet.IsBroadcast, Rewritten, IpHeaderValid, Filter.State.Fits, Filter.State.Remembered;
    var out := Rewritten(q, Src, own);
    RewriteKeepsIpHeader(q, Src, own);
    ReadsAlike(q, Src, own);
    TransportProto(out);
    var e := FilterLaws.Out(out, subnet, now);
    var any := Filter.FlowKey(ports.proto, ports.sport, Filter.ANY_MEMBER, ports.dport);
    assert FilterLaws.Opens(f, e) == Some(any);
    FilterLaws.OpenedIsRemembered(f, e, any);
  }

  /**
   Searches.  When a program on some other local address broadcasts a search, to the room or to
   another network it computed, the search leaves with the room address, and any
   member's answer less than FLOW_IDLE later is let in and handed to that program, if there was
   room in both tables and no other local address took the search over, or holds a flow of its
   own with that member on those ports.
   */
  lemma {:induction false} SearchRoundTrip(s: State, p: seq<Byte>, own: Addr, subnet: RoomSubnet, now: nat,
                                           probe: bool, to: Addr, ports: Ports, es: seq<Event>, member: Addr,
                                           r: seq<Byte>, later: nat)
    requires subnet.Valid() && Searches(s, p, own, subnet, to, ports)
    requires BroadcastOpen(s.Synced().filter, ports.proto, ports.dport)
    requires ports.proto == Udp ==> !Noise(ports.dport)
    requires s.filter.Fits(Filter.FlowKey(ports.proto, ports.sport, Filter.ANY_MEMBER, ports.dport), now)
    requires RoomFor(s.rebinder.searches, Rebinder.SearchKey(ports.proto, ports.sport, ports.dport), now)
    requires var flow := Filter.FlowKey(ports.proto, ports.sport, member, ports.dport);
      && Clear(s.rebinder.flows, flow, to, now)
      && Unshared(s.Up(p, Some(own), subnet, now, probe).0, es, own, subnet, {flow},
                  {Rebinder.SearchKey(ports.proto, ports.sport, ports.dport)}, to)
    requires Within(es, now, Filter.FLOW_IDLE) && now <= later < now + Filter.FLOW_IDLE
    requires Answers(r, own, member, ports)
    ensures var (sending, sent) := s.Up(p, Some(own), subnet, now, probe);
      && sent.Some? && |sent.value| >= 20
      && AddrAt(sent.value, 12) == own && AddrAt(sent.value, 16) == Destination(s, p, subnet)
      && subnet.IsBroadcast(AddrAt(sent.value, 16))
      && var outcome := PumpLaws.Run(sending, es, own, subnet).Down(r, Some(own), subnet, later).1;
         outcome.Handed? && HandedTo(outcome.packet, r, to)
  {
    hide State.Up, State.Down, Transport, Rewritten, RoomSubnet.Valid, RoomSubnet.IsBroadcast;
    var any := Filter.FlowKey(ports.proto, ports.sport, Filter.ANY_MEMBER, ports.dport);
    var flow, search := any.(far := member), Rebinder.SearchKey(ports.proto, ports.sport, ports.dport);
    var sending := s.Up(p, Some(own), subnet, now, probe).0;
    SearchLeaves(s, p, own, subnet, now, probe, to, ports);
    RedirectedSearch(s, p, own, subnet, to, ports);
    RewriteKeepsIpHeader(s.rebinder.Redirected(p, subnet), Src, own);
    RunKeepsClear(sending, es, own, subnet, flow, {search}, to, now);
    RunKeeps(sending, es, own, subnet, any, {}, {search}, to, now);
    var s' := PumpLaws.Run(sending, es, own, subnet);
    assert Holds(s'.rebinder.searches, search, to, now);
    MirrorKey(r, own, member, ports);
    AnswerComesBack(s', r, own, subnet, later, member, ports, any, to);
  }

  // ---------------------------------------------------------------- what the survey found

  /** Where no flow and no search is live, the survey decides: the first address it found the port on. */
  lemma SurveyedTarget(s: Rebinder.State, ports: Ports, from: Addr, now: nat)
    requires !Rebinder.LiveIn(s.flows, Filter.FlowKey(ports.proto, ports.dport, from, ports.sport), now)
    requires !Rebinder.LiveIn(s.searches, Rebinder.SearchKey(ports.proto, ports.dport, ports.sport), now)
    ensures var (after, target) := s.TargetOf(ports.proto, ports.dport, from, ports.sport, now);
      && after == s
      && (target.None? <==> forall r :: r in s.survey.rebound ==> r.port != Filter.LanPort(ports.proto, ports.dport))
      && (target.Some? ==>
            exists i :: FoundAt(s.survey.rebound, Filter.LanPort(ports.proto, ports.dport), target.value, i))
  {
    ReboundIs(s.survey.rebound, ports.proto, ports.dport);
  }

  predicate FoundAt(rebound: seq<Rebinder.Rebound>, port: Filter.LanPort, target: Rebinder.Target, i: int) {
    && 0 <= i < |rebound| && rebound[i] == Rebinder.Rebound(port, target.to, target.pinned)
    && forall j :: 0 <= j < i ==> rebound[j].port != port
  }

  lemma {:induction false} ReboundIs(rebound: seq<Rebinder.Rebound>, proto: LanProto, port: U16)
    ensures var key, target := Filter.LanPort(proto, port), Rebinder.ReboundTo(rebound, proto, port);
      && (target.None? <==> forall r :: r in rebound ==> r.port != key)
      && (target.Some? ==> exists i :: FoundAt(rebound, key, target.value, i))
  {
    var key := Filter.LanPort(proto, port);
    if rebound != [] {
      ReboundIs(rebound[1..], proto, port);
      var target := Rebinder.ReboundTo(rebound, proto, port);
      if rebound[0].port == key {
        assert FoundAt(rebound, key, target.value, 0);
      } else {
        assert rebound == [rebound[0]] + rebound[1..];
        if target.Some? {
          var i :| FoundAt(rebound[1..], key, target.value, i);
          assert FoundAt(rebound, key, target.value, i + 1);
        }
      }
    }
  }

  /** A pinned socket's packet is marked, any other keeps its DSCP; the congestion bits stay. */
  lemma PinnedIsMarked(p: seq<Byte>, target: Rebinder.Target)
    requires WellFormed(p) && Rewrites(p, Dst, target.to)
    ensures var x := Rebinder.Delivered(p, target).value;
      && |x| == |p| && x[1] as int % 4 == p[1] as int % 4
      && x[1] as int / 4 == if target.pinned then Rebinder.PINNED_DSCP else p[1] as int / 4
  {
    RewriteKeepsIpHeader(p, Dst, target.to);
    var q := Rewritten(p, Dst, target.to);
    SliceIndex(q, p, 0, 10);
    if target.pinned {
      DscpKeeps(q, Rebinder.PINNED_DSCP);
    }
  }

  // ---------------------------------------------------------------- ICMP errors

  /** What the pump hands over is the error, edited, with at most its DSCP marked. */
  lemma DeliveredError(e: seq<Byte>, target: Rebinder.Target)
    requires QuotedLaws.IsError(e) && Rewrites(e, Dst, target.to)
    ensures var back := Rewritten(e, Dst, target.to);
      && QuotedLaws.IsError(back) && Rebinder.Delivered(e, target).Some?
      && var x := Rebinder.Delivered(e, target).value;
         QuotedLaws.IsError(x) && AddrAt(x, 16) == target.to && QuotedLaws.Quoted(x) == QuotedLaws.Quoted(back)
  {
    hide IpHeaderValid, Rewritten;
    RewriteKeepsIpHeader(e, Dst, target.to);
    QuotedLaws.ErrorShape(e, Dst, target.to);
    if target.pinned {
      MarkedError(Rewritten(e, Dst, target.to));
    }
  }

  lemma MarkedError(e: seq<Byte>)
    requires QuotedLaws.IsError(e)
    ensures var x := WithDscp(e, Rebinder.PINNED_DSCP);
      QuotedLaws.IsError(x) && AddrAt(x, 16) == AddrAt(e, 16) && QuotedLaws.Quoted(x) == QuotedLaws.Quoted(e)
  {
    hide IpHeaderValid, WithDscp;
    DscpKeeps(e, Rebinder.PINNED_DSCP);
    var x := WithDscp(e, Rebinder.PINNED_DSCP);
    assert Word(x, 6) == Word(e, 6);
    assert x[HeaderLen(e) + 8..] == e[HeaderLen(e) + 8..];
  }

  lemma QuotesFlow(p: seq<Byte>, own: Addr, e: seq<Byte>, k: nat, dst: Addr, ports: Ports)
    requires UndoLaws.Quotable(p, k) && Transport(p) == Some(ports)
    requires Endpoints(p).Some? && Endpoints(p).value.1 == dst
    requires QuotedLaws.IsError(e) && QuotedLaws.Quoted(e) == Rewritten(p, Src, own)[..k]
    ensures QuotedTransport(e) == Some(QuotedFlow(ports, dst))
  {
    var q := Rewritten(p, Src, own);
    RewriteKeepsIpHeader(p, Src, own);
    ReadsAlike(p, Src, own);
    SameReading(q, q);
    var inner := q[..k];
    assert inner[0] == q[0] && inner[9] == q[9] && Word(inner, 6) == Word(q, 6);
    assert AddrAt(inner, 16) == AddrAt(q, 16);
    assert Word(inner, HeaderLen(q)) == Word(q, HeaderLen(q));
    assert Word(inner, HeaderLen(q) + 2) == Word(q, HeaderLen(q) + 2);
  }

  /**
   Errors.  When what that program sent draws an ICMP error, from whatever router, quoting
   at least the header and eight bytes, the error is handed to the program less than FLOW_IDLE
   later, and it quotes the bytes the program itself sent, exactly when their checksums are ones
   a sender computes.
   */
  lemma {:induction false} ErrorRoundTrip(s: State, p: seq<Byte>, own: Addr, subnet: RoomSubnet, now: nat,
                                          probe: bool, to: Addr, dst: Addr, ports: Ports, es: seq<Event>,
                                          e: seq<Byte>, k: nat, later: nat)
    requires subnet.Valid() && FromProgram(s, p, own, subnet, to, dst, ports)
    requires !s.rebinder.Redirects(dst, subnet) && !subnet.IsBroadcast(dst)
    requires var key := Filter.FlowKey(ports.proto, ports.sport, dst, ports.dport);
      && s.filter.Fits(key, now) && RoomFor(s.rebinder.flows, key, now)
      && Unshared(s.Up(p, Some(own), subnet, now, probe).0, es, own, subnet, {key}, {}, to)
    requires Within(es, now, Filter.FLOW_IDLE) && now <= later < now + Filter.FLOW_IDLE
    requires UndoLaws.Quotable(p, k) && QuotedLaws.IsError(e) && AddrAt(e, 16) == own
    requires QuotedLaws.Quoted(e) == Rewritten(p, Src, own)[..k]
    ensures var (sending, sent) := s.Up(p, Some(own), subnet, now, probe);
      && sent == Some(Rewritten(p, Src, own))
      && var outcome := PumpLaws.Run(sending, es, own, subnet).Down(e, Some(own), subnet, later).1;
         && outcome.Handed? && QuotedLaws.IsError(outcome.packet) && AddrAt(outcome.packet, 16) == to
         && WellFormed(p[..k])
         && (QuotedLaws.Quoted(outcome.packet) == p[..k] <==> UndoLaws.Canonical(p[..k]))
  {
    hide RoomSubnet.Valid, RoomSubnet.IsBroadcast, RoomSubnet.IsPseudoBroadcast, Rewritten, UndoLaws.Canonical,
         Filter.State.Fits, State.Up, State.Down;
    var key := Filter.FlowKey(ports.proto, ports.sport, dst, ports.dport);
    var sending := s.Up(p, Some(own), subnet, now, probe).0;
    UnicastLeaves(s, p, own, subnet, now, probe, to, dst, ports);
    RunKeeps(sending, es, own, subnet, key, {key}, {}, to, now);
    var s' := PumpLaws.Run(sending, es, own, subnet);
    assert Holds(s'.rebinder.flows, key, to, now);
    TransportProto(p);
    QuotesFlow(p, own, e, k, dst, ports);
    var target := s'.rebinder.Lookup(e, later).1;
    assert target.Some? && target.value.to == to;
    UndoLaws.PrefixShape(p, k);
    UndoLaws.ErrorRestores(p, own, e, k);
    DeliveredError(e, target.value);
    ErrorIsHanded(s', e, own, subnet, later, target.value);
  }

  lemma ErrorIsHanded(s: State, e: seq<Byte>, own: Addr, subnet: RoomSubnet, now: nat, target: Rebinder.Target)
    requires subnet.Valid() && QuotedLaws.IsError(e) && AddrAt(e, 16) == own
    requires s.rebinder.Lookup(e, now).1 == Some(target) && Rebinder.Delivered(e, target).Some?
    ensures s.Down(e, Some(own), subnet, now).1 == Handed(Rebinder.Delivered(e, target).value)
  {
  }

  // ---------------------------------------------------------------- fragments

  function PieceKey(p: seq<Byte>): Filter.FragmentKey
    requires |p| >= 20
  {
    Filter.FragmentKey(AddrAt(p, 12), Word(p, 4), p[9])
  }

  /** Both tables know where the datagram's first piece, seen at `t`, went. */
  predicate Vouches(s: State, key: Filter.FragmentKey, target: Rebinder.Target, t: nat) {
    && key in s.rebinder.fragments && s.rebinder.fragments[key] == Rebinder.Vouched(target, t)
    && key in s.filter.fragments && t <= s.filter.fragments[key]
  }

  predicate IsFirst(p: seq<Byte>) { WellFormed(p) && FragmentOffset(p) == 0 && MoreFragments(p) }

  /** Another datagram's first piece reusing the source, id and protocol. */
  predicate Reuses(e: Event, key: Filter.FragmentKey) {
    e.Received? && Endpoints(e.p).Some? && FragmentOffset(e.p) == 0 && MoreFragments(e.p) && PieceKey(e.p) == key
  }

  lemma FilterStepVouches(f: Filter.State, e: FilterLaws.Event, key: Filter.FragmentKey, t: nat)
    requires e.Ok() && t <= e.now < t + Filter.FRAGMENT_WINDOW
    requires key in f.fragments && t <= f.fragments[key]
    ensures var after := FilterLaws.Step(f, e).0; key in after.fragments && t <= after.fragments[key]
  {
    if e.Out? {
      FilterLaws.OutboundIs(f, e);
    }
  }

  lemma RebinderStepVouches(s: Rebinder.State, p: seq<Byte>, own: Addr, now: nat, key: Filter.FragmentKey, t: nat)
    requires t <= now < t + Rebinder.FRAGMENT_WINDOW && !Reuses(Received(p, now), key)
    requires key in s.fragments && s.fragments[key].at == t
    ensures var after := s.Inbound(p, own, now).0;
      key in after.fragments && after.fragments[key] == s.fragments[key]
  {
    if Endpoints(p).Some? && Endpoints(p).value.1 == own {
      assert s.Lookup(p, now).0.fragments == s.fragments;
    }
  }

  lemma StepVouches(s: State, e: Event, own: Addr, subnet: RoomSubnet, key: Filter.FragmentKey,
                    target: Rebinder.Target, t: nat)
    requires subnet.Valid() && t <= e.now < t + Rebinder.FRAGMENT_WINDOW
    requires Vouches(s, key, target, t) && !Reuses(e, key)
    ensures Vouches(PumpLaws.Step(s, e, own, subnet), key, target, t)
  {
    hide State.Up, State.Down, RoomSubnet.Valid, Rebinder.State.Outbound, Rebinder.State.Inbound, OpeningOf;
    match e
    case Sent(p, now, probe) =>
      UpTables(s, p, own, subnet, now, probe);
      OutboundTables(s.rebinder, p, own, subnet, now, probe);
      FilterStepVouches(s.Synced().filter,
                        FilterLaws.Out(s.rebinder.Outbound(p, own, subnet, now, probe).1, subnet, now), key, t);
    case Received(p, now) =>
      DownTables(s, p, own, subnet, now);
      FilterStepVouches(s.Synced().filter, FilterLaws.In(p, now), key, t);
      RebinderStepVouches(s.rebinder, p, own, now, key, t);
    case _ =>
  }

  lemma {:induction false} RunVouches(s: State, es: seq<Event>, own: Addr, subnet: RoomSubnet,
                                      key: Filter.FragmentKey, target: Rebinder.Target, t: nat)
    requires subnet.Valid() && Within(es, t, Rebinder.FRAGMENT_WINDOW) && Vouches(s, key, target, t)
    requires forall i :: 0 <= i < |es| ==> !Reuses(es[i], key)
    ensures Vouches(PumpLaws.Run(s, es, own, subnet), key, target, t)
    decreases |es|
  {
    if es != [] {
      StepVouches(s, es[0], own, subnet, key, target, t);
      RunVouches(PumpLaws.Step(s, es[0], own, subnet), es[1..], own, subnet, key, target, t);
    }
  }

  /** A first piece that is let in and translated vouches, in both tables, for the rest. */
  lemma FirstVouches(s: State, p: seq<Byte>, own: Addr, subnet: RoomSubnet, now: nat, target: Rebinder.Target)
    requires subnet.Valid() && IsFirst(p) && Transport(p).Some? && AddrAt(p, 16) == own
    requires s.Synced().filter.Inbound(p, now).1 && s.rebinder.Lookup(p, now).1 == Some(target) && target.to != own
    ensures var (after, outcome) := s.Down(p, Some(own), subnet, now);
      && Vouches(after, PieceKey(p), target, now)
      && Rebinder.Delivered(p, target).Some? && outcome == Handed(Rebinder.Delivered(p, target).value)
  {
    TransportProto(p);
    NotWholeNoProbe(p);
    assert s.rebinder.Lookup(p, now).0.fragments == s.rebinder.fragments;
  }

  lemma NotWholeNoProbe(p: seq<Byte>)
    requires WellFormed(p) && (FragmentOffset(p) != 0 || MoreFragments(p))
    ensures !RoomCheck.IsProbe(p)
  {
  }

  /** A later piece, within the window, goes where the first one went, without ports of its own. */
  lemma LaterFollows(s: State, p: seq<Byte>, own: Addr, subnet: RoomSubnet, now: nat, target: Rebinder.Target, t: nat)
    requires subnet.Valid() && Later(p) && AddrAt(p, 16) == own && p[9] != PROTO_ICMP
    requires Vouches(s, PieceKey(p), target, t) && t <= now < t + Rebinder.FRAGMENT_WINDOW && target.to != own
    ensures var outcome := s.Down(p, Some(own), subnet, now).1;
      Rebinder.Delivered(p, target).Some? && outcome == Handed(Rebinder.Delivered(p, target).value)
  {
    hide RoomSubnet.IsBroadcast, RoomSubnet.Valid, RoomCheck.IsProbe, Rewritten, WithDscp;
    NotWholeNoProbe(p);
    RewriteKeepsIpHeader(p, Dst, target.to);
  }

  /**
   Fragments.  Once a datagram's first piece was let in and translated, every later piece within
   the translator's window goes to the same target, whatever the pump carried in between except
   another first piece reusing the source, id and protocol.
   */
  lemma {:induction false} LaterPieceSameTarget(s: State, first: seq<Byte>, own: Addr, subnet: RoomSubnet, now: nat,
                                                target: Rebinder.Target, es: seq<Event>, rest: seq<Byte>, later: nat)
    requires subnet.Valid() && IsFirst(first) && Transport(first).Some? && AddrAt(first, 16) == own
    requires s.Synced().filter.Inbound(first, now).1 && s.rebinder.Lookup(first, now).1 == Some(target)
    requires target.to != own
    requires Within(es, now, Rebinder.FRAGMENT_WINDOW) && now <= later < now + Rebinder.FRAGMENT_WINDOW
    requires forall i :: 0 <= i < |es| ==> !Reuses(es[i], PieceKey(first))
    requires Later(rest) && AddrAt(rest, 16) == own && PieceKey(rest) == PieceKey(first)
    ensures var (after, outcome) := s.Down(first, Some(own), subnet, now);
      && Rebinder.Delivered(first, target).Some? && outcome == Handed(Rebinder.Delivered(first, target).value)
      && Rebinder.Delivered(rest, target).Some?
      && PumpLaws.Run(after, es, own, subnet).Down(rest, Some(own), subnet, later).1
         == Handed(Rebinder.Delivered(rest, target).value)
  {
    FirstVouches(s, first, own, subnet, now, target);
    TransportProto(first);
    var after := s.Down(first, Some(own), subnet, now).0;
    RunVouches(after, es, own, subnet, PieceKey(first), target, now);
    LaterFollows(PumpLaws.Run(after, es, own, subnet), rest, own, subnet, later, target, now);
  }

  predicate Translates(p: seq<Byte>, to: Addr) { WellFormed(p) && Rewrites(p, Dst, to) }

  predicate AllTranslate(pieces: seq<seq<Byte>>, to: Addr) {
    forall i :: 0 <= i < |pieces| ==> Translates(pieces[i], to)
  }

  /** The pieces as handed over, each translated and, for a pinned socket, marked. */
  function DeliveredPieces(pieces: seq<seq<Byte>>, target: Rebinder.Target): (r: seq<seq<Byte>>)
    requires AllTranslate(pieces, target.to)
    ensures |r| == |pieces|
    ensures forall i :: 0 <= i < |r| ==> Some(r[i]) == Rebinder.Delivered(pieces[i], target)
  {
    if pieces == [] then []
    else [Rebinder.Delivered(pieces[0], target).value] + DeliveredPieces(pieces[1..], target)
  }

  /** The same pieces up to header bytes no transport checksum covers. */
  predicate SamePieces(r: seq<seq<Byte>>, q: seq<seq<Byte>>) {
    |r| == |q| && forall i :: 0 <= i < |r| ==> SamePiece(r[i], q[i])
  }

  predicate SamePiece(x: seq<Byte>, y: seq<Byte>) {
    && WellFormed(x) && WellFormed(y) && |x| == |y| && HeaderLen(x) == HeaderLen(y)
    && x[2..10] == y[2..10] && x[12..] == y[12..]
  }

  lemma {:induction false} SamePieceFacts(x: seq<Byte>, y: seq<Byte>)
    requires SamePiece(x, y)
    ensures Payload(x) == Payload(y) && FragmentOffset(x) == FragmentOffset(y) && x[9] == y[9] && SameEnds(x, y)
    ensures HasSegmentSum(x) == HasSegmentSum(y) && Checksum.Sum(x, 12, 20) == Checksum.Sum(y, 12, 20)
  {
    SliceIndex(x, y, 2, 10);
    assert x[12..|x|] == x[12..] && y[12..|y|] == y[12..];
    SliceIndex(x, y, 12, |x|);
    assert x[HeaderLen(x)..] == y[HeaderLen(x)..];
    assert x[12..20] == y[12..20];
    Checksum.SumSlice(x, 12, 20);
    Checksum.SumSlice(y, 12, 20);
  }

  lemma {:induction false} SameJoined(r: seq<seq<Byte>>, q: seq<seq<Byte>>)
    requires SamePieces(r, q)
    ensures AllWellFormed(r) && AllWellFormed(q) && Joined(r) == Joined(q)
  {
    if r != [] {
      assert SamePiece(r[0], q[0]);
      SamePieceFacts(r[0], q[0]);
      SameJoined(r[1..], q[1..]);
    }
  }

  lemma SameValid(r: seq<seq<Byte>>, q: seq<seq<Byte>>)
    requires SamePieces(r, q) && Pieces(q) && JoinedValid(q)
    ensures Pieces(r) && JoinedValid(r) && SameEnds(r[0], q[0])
  {
    SameJoined(r, q);
    assert SamePiece(r[0], q[0]);
    SamePieceFacts(r[0], q[0]);
    forall i | 1 <= i < |r| ensures Later(r[i]) && SameEnds(r[i], r[0]) {
      assert SamePiece(r[i], q[i]);
      SamePieceFacts(r[i], q[i]);
      assert SameEnds(q[i], q[0]);
    }
  }

  lemma DeliveredPiece(p: seq<Byte>, target: Rebinder.Target)
    requires WellFormed(p) && Rewrites(p, Dst, target.to)
    ensures SamePiece(Rebinder.Delivered(p, target).value, Rewritten(p, Dst, target.to))
  {
    RewriteKeepsIpHeader(p, Dst, target.to);
    var q := Rewritten(p, Dst, target.to);
    if target.pinned {
      DscpKeeps(q, Rebinder.PINNED_DSCP);
      var x := WithDscp(q, Rebinder.PINNED_DSCP);
      assert x[2..10] == q[2..10] && x[12..] == q[12..];
    }
  }

  /** So the program's stack reassembles one datagram, addressed to it, whose checksum verifies. */
  lemma {:induction false} PiecesDeliverAsOne(pieces: seq<seq<Byte>>, target: Rebinder.Target)
    requires Pieces(pieces) && JoinedValid(pieces) && AddrAt(pieces[0], 16) != target.to
    ensures AllTranslate(pieces, target.to)
    ensures var r := DeliveredPieces(pieces, target);
      Pieces(r) && JoinedValid(r) && AddrAt(r[0], 16) == target.to
  {
    PiecesWellFormed(pieces);
    forall i | 0 <= i < |pieces| ensures Translates(pieces[i], target.to) {
      assert SameEnds(pieces[i], pieces[0]);
    }
    var r, q := DeliveredPieces(pieces, target), Translated(pieces, Dst, target.to);
    PiecesTranslateAsOne(pieces, Dst, target.to);
    forall i | 0 <= i < |r| ensures SamePiece(r[i], q[i]) {
      DeliveredPiece(pieces[i], target);
    }
    SameValid(r, q);
  }
}
