/**
 Sockets pinned to another interface (`lan_rebind.rs`): whether they are is asked once, when a flow
 opens, and the answers on it are marked accordingly for as long as it is kept up.
 */
module Marks {
  import opened Wire
  import opened Ipv4
  import opened Subnet
  import opened Rewrite
  import opened RewriteLaws
  import opened Pump
  import opened PumpLaws
  import Filter
  import FilterLaws
  import PumpReplies
  import Rebinder
  import RoomCheck

  /** Whether the socket behind a program's packet is pinned: its flow knows, else a probe of UDP says. */
  function IsPinned(s: State, talk: Talk, probe: bool): bool {
    var flows, key := s.rebinder.flows, talk.Key();
    if key in flows && flows[key].to == talk.to then flows[key].pinned else talk.ports.proto == Udp && probe
  }

  predicate Marked(s: State, talk: Talk, pinned: bool) {
    talk.Key() in s.rebinder.flows && s.rebinder.flows[talk.Key()].pinned == pinned
  }

  lemma OpenedMarks(s: State, p: seq<Byte>, own: Addr, subnet: RoomSubnet, now: nat, probe: bool, talk: Talk)
    requires subnet.Valid() && Says(s, Sent(p, now, probe), own, subnet, talk)
    requires RoomFor(s.rebinder.flows, talk.Key(), now)
    ensures Marked(s.Up(p, Some(own), subnet, now, probe).0, talk, IsPinned(s, talk, probe))
  {
    hide RoomSubnet.Valid, RoomSubnet.IsBroadcast, RoomSubnet.IsPseudoBroadcast, FromProgram, State.Up;
    UnicastTables(s, p, own, subnet, now, probe, talk.to, talk.dst, talk.ports);
  }

  lemma RememberMarks<K(!new)>(m: map<K, Rebinder.Flow>, key: K, other: K, flow: Rebinder.Flow, now: nat)
    requires key in m && now < m[key].seen + Rebinder.FLOW_IDLE && (other == key ==> flow.pinned == m[key].pinned)
    ensures var after := Rebinder.Remember(m, other, flow, now); key in after && after[key].pinned == m[key].pinned
  {
  }

  lemma TargetMarks(s: Rebinder.State, proto: LanProto, port: U16, peer: Addr, peerPort: U16, now: nat,
                    key: Rebinder.FlowKey)
    requires key in s.flows
    ensures var after := s.TargetOf(proto, port, peer, peerPort, now).0;
      key in after.flows && after.flows[key].pinned == s.flows[key].pinned
  {
  }

  lemma InboundMarks(s: Rebinder.State, p: seq<Byte>, room: Addr, now: nat, key: Rebinder.FlowKey)
    requires key in s.flows
    ensures var after := s.Inbound(p, room, now).0;
      key in after.flows && after.flows[key].pinned == s.flows[key].pinned
  {
    hide Rebinder.State.TargetOf;
    if Endpoints(p).Some? && Endpoints(p).value.1 == room && FragmentOffset(p) == 0 {
      if p[9] == PROTO_ICMP {
        if QuotedTransport(p).Some? {
          var q := QuotedTransport(p).value;
          TargetMarks(s, q.ports.proto, q.ports.sport, q.dst, q.ports.dport, now, key);
        }
      } else if Transport(p).Some? {
        var ports := Transport(p).value;
        TargetMarks(s, ports.proto, ports.dport, Endpoints(p).value.0, ports.sport, now, key);
      }
    }
  }

  lemma OpeningMarks(s: Rebinder.State, o: Opening, subnet: RoomSubnet, now: nat, probe: bool, talk: Talk, t: nat)
    requires subnet.Valid() && t <= now < t + Rebinder.FLOW_IDLE && Holds(s.flows, talk.Key(), talk.to, t)
    requires !Takes(Some(o), subnet, {talk.Key()}, {}, talk.to)
    ensures var after := s.Opened(o.ports, o.src, o.dst, subnet, now, probe);
      talk.Key() in after.flows && after.flows[talk.Key()].pinned == s.flows[talk.Key()].pinned
  {
    if !subnet.IsBroadcast(o.dst) {
      var key := FlowOf(o);
      var known := if key in s.flows then Some(s.flows[key]) else None;
      RememberMarks(s.flows, talk.Key(), key,
                    Rebinder.Flow(o.src, s.Pinned(known, o.ports.proto, o.src, probe), now), now);
    }
  }

  lemma StepMarks(s: State, e: Event, own: Addr, subnet: RoomSubnet, talk: Talk, c: Clock, pinned: bool)
    requires subnet.Valid() && PumpLaws.Noted(s, talk, c) && c.Translates(e.now) && Marked(s, talk, pinned)
    requires e.Sent? ==> !Takes(OpeningOf(s.rebinder, e.p, own, subnet), subnet, {talk.Key()}, {}, talk.to)
    ensures Marked(PumpLaws.Step(s, e, own, subnet), talk, pinned)
  {
    hide State.Up, State.Down, RoomSubnet.Valid, Rebinder.State.Outbound, Rebinder.State.Inbound, OpeningOf, Takes;
    match e
    case Sent(p, now, probe) =>
      UpTables(s, p, own, subnet, now, probe);
      OutboundTables(s.rebinder, p, own, subnet, now, probe);
      var o := OpeningOf(s.rebinder, p, own, subnet);
      if o.Some? {
        OpeningMarks(s.rebinder, o.value, subnet, now, probe, talk, c.translator);
      }
    case Received(p, now) =>
      DownTables(s, p, own, subnet, now);
      InboundMarks(s.rebinder, p, own, now, talk.Key());
    case _ =>
  }

  lemma {:induction false} ConversationMarked(s: State, es: seq<Event>, own: Addr, subnet: RoomSubnet, talk: Talk,
                                              c: Clock, pinned: bool)
    requires subnet.Valid() && PumpLaws.Noted(s, talk, c) && KeptUp(s, es, own, subnet, talk, c)
    requires Unshared(s, es, own, subnet, {talk.Key()}, {}, talk.to) && Marked(s, talk, pinned)
    ensures Marked(PumpLaws.Run(s, es, own, subnet), talk, pinned)
    decreases |es|
  {
    hide PumpLaws.Noted, Ticked, PumpLaws.Step, RoomSubnet.Valid, Marked;
    if es != [] {
      TickKeeps(s, es[0], own, subnet, talk, c);
      StepMarks(s, es[0], own, subnet, talk, c, pinned);
      ConversationMarked(PumpLaws.Step(s, es[0], own, subnet), es[1..], own, subnet, talk,
                         Ticked(s, es[0], own, subnet, talk, c), pinned);
    }
  }

  /**
   What a program is answered is marked with DSCP 1 exactly if its socket was pinned when the flow
   opened, however long the conversation since; else it keeps its DSCP.
   */
  lemma {:induction false} AnswerIsMarked(s: State, p: seq<Byte>, own: Addr, subnet: RoomSubnet, now: nat,
                                          probe: bool, talk: Talk, es: seq<Event>, r: seq<Byte>, later: nat)
    requires subnet.Valid() && Says(s, Sent(p, now, probe), own, subnet, talk)
    requires s.filter.Fits(talk.Key(), now) && RoomFor(s.rebinder.flows, talk.Key(), now)
    requires var sending := s.Up(p, Some(own), subnet, now, probe).0;
      && Unshared(sending, es, own, subnet, {talk.Key()}, {}, talk.to)
      && KeptUp(sending, es, own, subnet, talk, Clock(Some(now), now))
      && var c := ClockAfter(sending, es, own, subnet, talk, Clock(Some(now), now));
         c.Translates(later) && (c.Filters(later) || PumpLaws.PortOpen(PumpLaws.Run(sending, es, own, subnet), talk))
    requires Answers(r, own, talk.dst, talk.ports)
    ensures var outcome := PumpLaws.Run(s.Up(p, Some(own), subnet, now, probe).0, es, own, subnet)
                             .Down(r, Some(own), subnet, later).1;
      && outcome.Handed? && |outcome.packet| >= 20
      && outcome.packet[1] as int / 4 == if IsPinned(s, talk, probe) then 1 else r[1] as int / 4
  {
    hide RoomSubnet.Valid, State.Up, State.Down, KeptUp, Unshared, ClockAfter, Answers, Rewritten, RoomFor, IsPinned,
         Filter.State.Fits, Rebinder.State.Redirects, RoomSubnet.IsBroadcast;
    var sending := s.Up(p, Some(own), subnet, now, probe).0;
    UnicastLeaves(s, p, own, subnet, now, probe, talk.to, talk.dst, talk.ports);
    OpenedMarks(s, p, own, subnet, now, probe, talk);
    ConversationNoted(sending, es, own, subnet, talk, Clock(Some(now), now));
    ConversationMarked(sending, es, own, subnet, talk, Clock(Some(now), now), IsPinned(s, talk, probe));
    HandedMarked(PumpLaws.Run(sending, es, own, subnet), r, own, subnet, later, talk);
  }

  lemma HandedMarked(s: State, r: seq<Byte>, own: Addr, subnet: RoomSubnet, now: nat, talk: Talk)
    requires subnet.Valid() && Answers(r, own, talk.dst, talk.ports) && talk.to != own
    requires Rebinder.LiveIn(s.rebinder.flows, talk.Key(), now) && s.rebinder.flows[talk.Key()].to == talk.to
    requires s.filter.Live(talk.Key(), now) || PumpLaws.PortOpen(s, talk)
    ensures var outcome := s.Down(r, Some(own), subnet, now).1;
      && outcome.Handed? && |outcome.packet| >= 20
      && outcome.packet[1] as int / 4 == if s.rebinder.flows[talk.Key()].pinned then 1 else r[1] as int / 4
  {
    hide RoomSubnet.Valid, Filter.Merged, RoomCheck.IsProbe, RoomCheck.Answer, Filter.State.Inbound, QuotedTransport,
         Rebinder.Delivered, RoomSubnet.IsBroadcast;
    MirrorKey(r, own, talk.dst, talk.ports);
    if s.filter.Live(talk.Key(), now) {
      FilterLaws.LiveIsAdmitted(s.Synced().filter, r, talk.Key(), now);
    } else {
      OpenIsAdmitted(s.Synced().filter, r, own, talk, now);
    }
    TransportProto(r);
    var flow := s.rebinder.flows[talk.Key()];
    DeliveredIs(r, Rebinder.Target(flow.to, flow.pinned));
    PumpReplies.PinnedIsMarked(r, Rebinder.Target(flow.to, flow.pinned));
  }

  lemma OpenIsAdmitted(f: Filter.State, r: seq<Byte>, own: Addr, talk: Talk, now: nat)
    requires Answers(r, own, talk.dst, talk.ports) && f.Admits(talk.ports.proto, talk.ports.sport)
    ensures f.Inbound(r, now).1
  {
    TransportProto(r);
  }
}
