/**
 Transparency end to end: a program bound to some other local address plays as if it were bound
 to the room address.  Its packets go out under that one and the answers are handed to it, through
 both tables and whatever else the pump carries in between.
 */
module PumpLaws {
  import opened Wire
  import opened Ipv4
  import opened Subnet
  import opened Rewrite
  import opened RewriteLaws
  import opened Pump
  import QuotedLaws
  import FragmentLaws
  import Filter
  import FilterLaws
  import Rebinder
  import RoomCheck

  // ---------------------------------------------------------------- the translator's tables

  /** Whether a flow is written down: below capacity, after sweeping for a new one. */
  predicate RoomFor<K(!new)>(m: map<K, Rebinder.Flow>, key: K, now: nat) {
    |m| < 4096 || (key !in m && |Rebinder.Recent(m, now)| < 4096)
  }

  /** A flow is written down exactly when there is room, or when the table held just that already. */
  lemma RememberedWhen<K(!new)>(m: map<K, Rebinder.Flow>, key: K, flow: Rebinder.Flow, now: nat)
    ensures var r := Rebinder.Remember(m, key, flow, now);
      key in r && r[key] == flow <==> RoomFor(m, key, now) || (key in m && m[key] == flow)
  {
  }

  /**
   Unlike the filter's (FilterLaws.OpenedIsRemembered), a full translation table does not refresh
   even a flow it knows: it is left untouched, to run out while the flow is in use.
   */
  lemma FullTableDoesNotRefresh<K(!new)>(m: map<K, Rebinder.Flow>, key: K, flow: Rebinder.Flow, now: nat)
    requires |m| >= Rebinder.MAX_FLOWS && key in m
    ensures Rebinder.Remember(m, key, flow, now) == m
  {
  }

  /** An entry for `to`, used at `t` or since. */
  predicate Holds<K(!new)>(m: map<K, Rebinder.Flow>, key: K, to: Addr, t: nat) {
    key in m && m[key].to == to && t <= m[key].seen
  }

  lemma RememberKeeps<K(!new)>(m: map<K, Rebinder.Flow>, key: K, to: Addr, t: nat,
                               other: K, flow: Rebinder.Flow, now: nat)
    requires Holds(m, key, to, t) && t <= now < t + Rebinder.FLOW_IDLE
    requires other == key ==> flow.to == to && t <= flow.seen
    ensures Holds(Rebinder.Remember(m, other, flow, now), key, to, t)
  {
  }

  /** The flow a packet opens in the translator, and the address it opens it for. */
  datatype Opening = Opening(ports: Ports, src: Addr, dst: Addr)

  function OpeningOf(s: Rebinder.State, p: seq<Byte>, room: Addr, subnet: RoomSubnet): Option<Opening>
    requires subnet.Valid()
  {
    match Endpoints(p)
    case None => None
    case Some((src, dst)) =>
      var q := s.Redirected(p, subnet);
      if src == room || src !in s.survey.locals || Transport(q).None? then None
      else Some(Opening(Transport(q).value, src, match Endpoints(q) case Some((_, d)) => d case None => dst))
  }

  function FlowOf(o: Opening): Rebinder.FlowKey {
    Filter.FlowKey(o.ports.proto, o.ports.sport, o.dst, o.ports.dport)
  }

  function SearchOf(o: Opening): Rebinder.SearchKey {
    Rebinder.SearchKey(o.ports.proto, o.ports.sport, o.ports.dport)
  }

  lemma OutboundTables(s: Rebinder.State, p: seq<Byte>, room: Addr, subnet: RoomSubnet, now: nat, probe: bool)
    requires subnet.Valid()
    ensures var after, o := s.Outbound(p, room, subnet, now, probe).0, OpeningOf(s, p, room, subnet);
      && after.survey == s.survey && after.fragments == s.fragments
      && (o.None? ==> after == s)
      && (o.Some? ==> after == s.Opened(o.value.ports, o.value.src, o.value.dst, subnet, now, probe))
  {
    hide RoomSubnet.IsBroadcast, RoomSubnet.IsPseudoBroadcast, Transport, Rewritten, Rebinder.State.Opened;
    if OpeningOf(s, p, room, subnet).Some? {
      var o := OpeningOf(s, p, room, subnet).value;
      OpenedTouches(s, o, subnet, now, probe);
    }
  }

  lemma OpenedTouches(s: Rebinder.State, o: Opening, subnet: RoomSubnet, now: nat, probe: bool)
    requires subnet.Valid()
    ensures var after := s.Opened(o.ports, o.src, o.dst, subnet, now, probe);
      after.survey == s.survey && after.fragments == s.fragments
  {
  }

  /** Whether an opening is for another address than `to`, of one of these flows or searches. */
  predicate Takes(o: Option<Opening>, subnet: RoomSubnet, flows: set<Rebinder.FlowKey>,
                  searches: set<Rebinder.SearchKey>, to: Addr)
    requires subnet.Valid()
  {
    && o.Some? && o.value.src != to
    && if subnet.IsBroadcast(o.value.dst) then SearchOf(o.value) in searches else FlowOf(o.value) in flows
  }

  /** What an outbound packet does to a flow: nothing, unless it opens that very flow for another address. */
  lemma OpenedKeepsFlow(s: Rebinder.State, o: Opening, subnet: RoomSubnet, now: nat, probe: bool,
                        flow: Rebinder.FlowKey, to: Addr, t: nat)
    requires subnet.Valid() && t <= now < t + Rebinder.FLOW_IDLE
    requires Holds(s.flows, flow, to, t) && !Takes(Some(o), subnet, {flow}, {}, to)
    ensures Holds(s.Opened(o.ports, o.src, o.dst, subnet, now, probe).flows, flow, to, t)
  {
    if !subnet.IsBroadcast(o.dst) {
      var key := FlowOf(o);
      var known := if key in s.flows then Some(s.flows[key]) else None;
      RememberKeeps(s.flows, flow, to, t, key,
                    Rebinder.Flow(o.src, s.Pinned(known, o.ports.proto, o.src, probe), now), now);
    }
  }

  lemma OpenedKeepsSearch(s: Rebinder.State, o: Opening, subnet: RoomSubnet, now: nat, probe: bool,
                          search: Rebinder.SearchKey, to: Addr, t: nat)
    requires subnet.Valid() && t <= now < t + Rebinder.FLOW_IDLE
    requires Holds(s.searches, search, to, t) && !Takes(Some(o), subnet, {}, {search}, to)
    ensures Holds(s.Opened(o.ports, o.src, o.dst, subnet, now, probe).searches, search, to, t)
  {
    if subnet.IsBroadcast(o.dst) {
      var key := SearchOf(o);
      var known := if key in s.searches then Some(s.searches[key]) else None;
      RememberKeeps(s.searches, search, to, t, key,
                    Rebinder.Flow(o.src, s.Pinned(known, o.ports.proto, o.src, probe), now), now);
    }
  }

  lemma TargetKeeps(s: Rebinder.State, proto: LanProto, port: U16, peer: Addr, peerPort: U16, now: nat,
                    flow: Rebinder.FlowKey, search: Rebinder.SearchKey, to: Addr, t: nat)
    requires t <= now
    ensures var after := s.TargetOf(proto, port, peer, peerPort, now).0;
      && (Holds(s.flows, flow, to, t) ==> Holds(after.flows, flow, to, t))
      && (Holds(s.searches, search, to, t) ==> Holds(after.searches, search, to, t))
  {
  }

  lemma LookupKeeps(s: Rebinder.State, p: seq<Byte>, now: nat,
                    flow: Rebinder.FlowKey, search: Rebinder.SearchKey, to: Addr, t: nat)
    requires t <= now && Endpoints(p).Some?
    ensures var after := s.Lookup(p, now).0;
      && (Holds(s.flows, flow, to, t) ==> Holds(after.flows, flow, to, t))
      && (Holds(s.searches, search, to, t) ==> Holds(after.searches, search, to, t))
  {
    if FragmentOffset(p) == 0 {
      if p[9] == PROTO_ICMP {
        if QuotedTransport(p).Some? {
          var q := QuotedTransport(p).value;
          TargetKeeps(s, q.ports.proto, q.ports.sport, q.dst, q.ports.dport, now, flow, search, to, t);
        }
      } else if Transport(p).Some? {
        var ports := Transport(p).value;
        TargetKeeps(s, ports.proto, ports.dport, Endpoints(p).value.0, ports.sport, now, flow, search, to, t);
      }
    }
  }

  /** Inbound packets only make entries fresher. */
  lemma InboundKeeps(s: Rebinder.State, p: seq<Byte>, room: Addr, now: nat,
                     flow: Rebinder.FlowKey, search: Rebinder.SearchKey, to: Addr, t: nat)
    requires t <= now
    ensures var after := s.Inbound(p, room, now).0;
      && (Holds(s.flows, flow, to, t) ==> Holds(after.flows, flow, to, t))
      && (Holds(s.searches, search, to, t) ==> Holds(after.searches, search, to, t))
  {
    if Endpoints(p).Some? && Endpoints(p).value.1 == room {
      LookupKeeps(s, p, now, flow, search, to, t);
    }
  }

  // ---------------------------------------------------------------- runs of the pump

  /** What happens to a pump whose member is seated: packets either way, a change of ports, a new survey. */
  datatype Event =
    | Sent(p: seq<Byte>, now: nat, probe: bool)
    | Received(p: seq<Byte>, now: nat)
    | Allowed(extra: Filter.Extra, now: nat)
    | Surveyed(survey: Rebinder.Survey, now: nat)

  function Step(s: State, e: Event, own: Addr, subnet: RoomSubnet): State
    requires subnet.Valid()
  {
    match e
    case Sent(p, now, probe) => s.Up(p, Some(own), subnet, now, probe).0
    case Received(p, now) => s.Down(p, Some(own), subnet, now).0
    case Allowed(extra, _) => s.(extra := extra)
    case Surveyed(survey, now) => s.(rebinder := s.rebinder.(survey := survey))
  }

  function Run(s: State, es: seq<Event>, own: Addr, subnet: RoomSubnet): State
    requires subnet.Valid()
    decreases |es|
  {
    if es == [] then s else Run(Step(s, es[0], own, subnet), es[1..], own, subnet)
  }

  /** What a turn of the up half does to the tables: the translator's step, and the filter's if it gets that far. */
  lemma UpTables(s: State, p: seq<Byte>, own: Addr, subnet: RoomSubnet, now: nat, probe: bool)
    requires subnet.Valid()
    ensures var after, synced := s.Up(p, Some(own), subnet, now, probe).0, s.Synced().filter;
      var (r, q, _) := s.rebinder.Outbound(p, own, subnet, now, probe);
      && after.rebinder == r && after.extra == s.extra
      && after.filter in {s.filter, synced, synced.Outbound(q, subnet, now).0}
  {
    hide RoomSubnet.Valid, Rebinder.State.Outbound, Filter.State.Outbound, OwnPortUnreachable, IsChatterBroadcast,
         Filter.Merged;
    var r := s.rebinder.Outbound(p, own, subnet, now, probe).0;
    assert s.(rebinder := r).Synced() == s.Synced().(rebinder := r);
  }

  /** And of the down half. */
  lemma DownTables(s: State, p: seq<Byte>, own: Addr, subnet: RoomSubnet, now: nat)
    requires subnet.Valid()
    ensures var after := s.Down(p, Some(own), subnet, now).0;
      && after.filter == s.Synced().filter.Inbound(p, now).0 && after.extra == s.extra
      && after.rebinder in {s.rebinder, s.rebinder.Inbound(p, own, now).0}
  {
    hide RoomSubnet.Valid, Rebinder.State.Inbound, Filter.State.Inbound, RoomCheck.IsProbe, RoomCheck.Answer,
         Filter.Merged;
  }

  predicate Within(es: seq<Event>, t: nat, window: nat) {
    forall i :: 0 <= i < |es| ==> t <= es[i].now < t + window
  }

  /** No other of this machine's addresses opens these flows or searches. */
  predicate Unshared(s: State, es: seq<Event>, own: Addr, subnet: RoomSubnet,
                     flows: set<Rebinder.FlowKey>, searches: set<Rebinder.SearchKey>, to: Addr)
    requires subnet.Valid()
    decreases |es|
  {
    es != [] ==>
      && (es[0].Sent? ==> !Takes(OpeningOf(s.rebinder, es[0].p, own, subnet), subnet, flows, searches, to))
      && Unshared(Step(s, es[0], own, subnet), es[1..], own, subnet, flows, searches, to)
  }

  predicate AllHeld(s: State, flows: set<Rebinder.FlowKey>, searches: set<Rebinder.SearchKey>, to: Addr, t: nat) {
    && (forall k :: k in flows ==> Holds(s.rebinder.flows, k, to, t))
    && (forall q :: q in searches ==> Holds(s.rebinder.searches, q, to, t))
  }

  lemma FlowKept(s: State, e: Event, own: Addr, subnet: RoomSubnet, flow: Rebinder.FlowKey, to: Addr, t: nat)
    requires subnet.Valid() && t <= e.now < t + Rebinder.FLOW_IDLE && Holds(s.rebinder.flows, flow, to, t)
    requires e.Sent? ==> !Takes(OpeningOf(s.rebinder, e.p, own, subnet), subnet, {flow}, {}, to)
    ensures Holds(Step(s, e, own, subnet).rebinder.flows, flow, to, t)
  {
    hide State.Up, State.Down, RoomSubnet.Valid, Rebinder.State.Outbound, Rebinder.State.Inbound, OpeningOf;
    match e
    case Sent(p, now, probe) =>
      UpTables(s, p, own, subnet, now, probe);
      OutboundTables(s.rebinder, p, own, subnet, now, probe);
      var o := OpeningOf(s.rebinder, p, own, subnet);
      if o.Some? {
        OpenedKeepsFlow(s.rebinder, o.value, subnet, now, probe, flow, to, t);
      }
    case Received(p, now) =>
      DownTables(s, p, own, subnet, now);
      InboundKeeps(s.rebinder, p, own, now, flow, SOME_SEARCH, to, t);
    case _ =>
  }

  const SOME_SEARCH := Rebinder.SearchKey(Udp, 0, 0)
  const SOME_FLOW := Filter.FlowKey(Udp, 0, UNSPECIFIED, 0)

  lemma SearchKept(s: State, e: Event, own: Addr, subnet: RoomSubnet, search: Rebinder.SearchKey, to: Addr, t: nat)
    requires subnet.Valid() && t <= e.now < t + Rebinder.FLOW_IDLE && Holds(s.rebinder.searches, search, to, t)
    requires e.Sent? ==> !Takes(OpeningOf(s.rebinder, e.p, own, subnet), subnet, {}, {search}, to)
    ensures Holds(Step(s, e, own, subnet).rebinder.searches, search, to, t)
  {
    hide State.Up, State.Down, RoomSubnet.Valid, Rebinder.State.Outbound, Rebinder.State.Inbound, OpeningOf;
    match e
    case Sent(p, now, probe) =>
      UpTables(s, p, own, subnet, now, probe);
      OutboundTables(s.rebinder, p, own, subnet, now, probe);
      var o := OpeningOf(s.rebinder, p, own, subnet);
      if o.Some? {
        OpenedKeepsSearch(s.rebinder, o.value, subnet, now, probe, search, to, t);
      }
    case Received(p, now) =>
      DownTables(s, p, own, subnet, now);
      InboundKeeps(s.rebinder, p, own, now, SOME_FLOW, search, to, t);
    case _ =>
  }

  lemma StepKeeps(s: State, e: Event, own: Addr, subnet: RoomSubnet, flows: set<Rebinder.FlowKey>,
                  searches: set<Rebinder.SearchKey>, to: Addr, t: nat)
    requires subnet.Valid() && t <= e.now < t + Filter.FLOW_IDLE
    requires e.Sent? ==> !Takes(OpeningOf(s.rebinder, e.p, own, subnet), subnet, flows, searches, to)
    requires AllHeld(s, flows, searches, to, t)
    ensures AllHeld(Step(s, e, own, subnet), flows, searches, to, t)
  {
    var after := Step(s, e, own, subnet);
    forall k | k in flows ensures Holds(after.rebinder.flows, k, to, t) {
      FlowKept(s, e, own, subnet, k, to, t);
    }
    forall q | q in searches ensures Holds(after.rebinder.searches, q, to, t) {
      SearchKept(s, e, own, subnet, q, to, t);
    }
  }

  lemma StepKeepsFilter(s: State, e: Event, own: Addr, subnet: RoomSubnet, key: Filter.FlowKey, t: nat)
    requires subnet.Valid() && t <= e.now < t + Filter.FLOW_IDLE
    requires key in s.filter.flows && t <= s.filter.flows[key]
    ensures var after := Step(s, e, own, subnet).filter; key in after.flows && t <= after.flows[key]
  {
    hide State.Up, State.Down, RoomSubnet.Valid, Rebinder.State.Outbound, Rebinder.State.Inbound, OpeningOf;
    var f := s.Synced().filter;
    match e
    case Sent(p, now, probe) =>
      UpTables(s, p, own, subnet, now, probe);
      var q := s.rebinder.Outbound(p, own, subnet, now, probe).1;
      FilterLaws.FlowPersists(f, FilterLaws.Out(q, subnet, now), key, t);
    case Received(p, now) =>
      DownTables(s, p, own, subnet, now);
      FilterLaws.FlowPersists(f, FilterLaws.In(p, now), key, t);
    case _ =>
  }

  /** Over any run within the window, the entries stay and stay as fresh. */
  lemma {:induction false} RunKeeps(s: State, es: seq<Event>, own: Addr, subnet: RoomSubnet, key: Filter.FlowKey,
                                    flows: set<Rebinder.FlowKey>, searches: set<Rebinder.SearchKey>, to: Addr, t: nat)
    requires subnet.Valid() && Within(es, t, Filter.FLOW_IDLE) && Unshared(s, es, own, subnet, flows, searches, to)
    requires key in s.filter.flows && t <= s.filter.flows[key] && AllHeld(s, flows, searches, to, t)
    ensures var after := Run(s, es, own, subnet);
      key in after.filter.flows && t <= after.filter.flows[key] && AllHeld(after, flows, searches, to, t)
    decreases |es|
  {
    if es != [] {
      StepKeeps(s, es[0], own, subnet, flows, searches, to, t);
      StepKeepsFilter(s, es[0], own, subnet, key, t);
      RunKeeps(Step(s, es[0], own, subnet), es[1..], own, subnet, key, flows, searches, to, t);
    }
  }

  // ---------------------------------------------------------------- what a rewrite leaves to read

  /** Ports, fragment fields and protocol are read off a rewritten packet as off the packet. */
  lemma ReadsAlike(p: seq<Byte>, field: Field, to: Addr)
    requires WellFormed(p) && Transport(p).Some?
    ensures var q := Rewritten(p, field, to);
      && WellFormed(q) && HeaderLen(q) == HeaderLen(p) && q[9] == p[9] && q[..10] == p[..10]
      && Transport(q) == Transport(p)
  {
    RewriteKeepsIpHeader(p, field, to);
    PortsKept(p, field, to);
    SameReading(p, Rewritten(p, field, to));
  }

  lemma SameReading(p: seq<Byte>, q: seq<Byte>)
    requires WellFormed(p) && Transport(p).Some? && |q| == |p| && q[..10] == p[..10]
    requires q[HeaderLen(p)..HeaderLen(p) + 4] == p[HeaderLen(p)..HeaderLen(p) + 4]
    ensures WellFormed(q) && HeaderLen(q) == HeaderLen(p) && q[9] == p[9] && Transport(q) == Transport(p)
    ensures FragmentOffset(q) == FragmentOffset(p) && MoreFragments(q) == MoreFragments(p)
  {
    SliceIndex(q, p, 0, 10);
    SliceIndex(q, p, HeaderLen(p), HeaderLen(p) + 4);
  }

  lemma PortsKept(p: seq<Byte>, field: Field, to: Addr)
    requires WellFormed(p) && Transport(p).Some?
    ensures Rewritten(p, field, to)[HeaderLen(p)..HeaderLen(p) + 4] == p[HeaderLen(p)..HeaderLen(p) + 4]
  {
    hide AdjustTransport, RewrittenHeader, RewrittenBody, Splice;
    var ihl := HeaderLen(p);
    if Rewrites(p, field, to) {
      HeaderTail(p, field, to, ihl, ihl + 4);
      var h, at := RewrittenHeader(p, field, to), SegmentSumAt(p);
      if HasSegmentSum(p) {
        RewriteSegment(p, field, to);
        SpliceOut(h, at, Bytes16(AdjustTransport(p[9], Word(p, at), AddrAt(p, field.Offset()).Octets(), to.Octets())),
                  ihl, ihl + 4);
      } else {
        QuotedLaws.HeaderOnly(p, field, to);
      }
    }
  }

  /** Everything a seated member's pump sends into the room carries the room address as source. */
  lemma SendsOwnAddress(s: State, p: seq<Byte>, own: Addr, subnet: RoomSubnet, now: nat, probe: bool)
    requires subnet.Valid() && s.Up(p, Some(own), subnet, now, probe).1.Some?
    ensures var q := s.Up(p, Some(own), subnet, now, probe).1.value;
      Endpoints(q).Some? && Endpoints(q).value.0 == own
  {
  }

  /** And so does what it answers a room check with. */
  lemma AnswersFromOwnAddress(s: State, p: seq<Byte>, own: Addr, subnet: RoomSubnet, now: nat)
    requires subnet.Valid()
    ensures var outcome := s.Down(p, Some(own), subnet, now).1;
      outcome.Answered? && outcome.reply.Some? ==>
        Endpoints(outcome.reply.value).Some? && Endpoints(outcome.reply.value).value.0 == own
  {
    hide RoomSubnet.Valid, RoomCheck.Answer, RoomCheck.IsProbe, Filter.State.Inbound, Rebinder.State.Inbound,
         HasSegmentSum;
    RoomCheck.AnswerMirrors(p, own);
  }

  // ---------------------------------------------------------------- there

  /** A UDP or TCP packet, or first piece, a program sends from `to`, another of this machine's addresses. */
  predicate FromProgram(s: State, p: seq<Byte>, own: Addr, subnet: RoomSubnet, to: Addr, dst: Addr, ports: Ports)
    requires subnet.Valid()
  {
    && WellFormed(p) && Endpoints(p) == Some((to, dst)) && Transport(p) == Some(ports)
    && to != own && to in s.rebinder.survey.locals
  }

  lemma TransportProto(p: seq<Byte>)
    requires |p| >= 20 && Transport(p).Some?
    ensures p[9] in {PROTO_TCP, PROTO_UDP} && ProtoOf(p[9]) == Some(Transport(p).value.proto)
    ensures FragmentOffset(p) == 0 && |p| >= HeaderLen(p) + 4
  {
  }

  lemma UnicastTranslated(r: Rebinder.State, p: seq<Byte>, own: Addr, subnet: RoomSubnet, now: nat, probe: bool,
                          to: Addr, dst: Addr, ports: Ports)
    requires subnet.Valid() && WellFormed(p) && Endpoints(p) == Some((to, dst)) && Transport(p) == Some(ports)
    requires to != own && to in r.survey.locals && !r.Redirects(dst, subnet)
    ensures r.Outbound(p, own, subnet, now, probe)
         == (r.Opened(ports, to, dst, subnet, now, probe), Rewritten(p, Src, own), Rebinder.Done(true, false))
  {
    hide RoomSubnet.Valid, RoomSubnet.IsBroadcast, RoomSubnet.IsPseudoBroadcast, Transport, Rewritten,
         Rebinder.State.Opened;
  }

  /** Past the translator: a UDP or TCP packet from the room address, to a member. */
  predicate Ready(q: seq<Byte>, own: Addr, dst: Addr, ports: Ports) {
    WellFormed(q) && Endpoints(q) == Some((own, dst)) && Transport(q) == Some(ports)
  }

  lemma UnicastReady(p: seq<Byte>, own: Addr, to: Addr, dst: Addr, ports: Ports)
    requires WellFormed(p) && Endpoints(p) == Some((to, dst)) && Transport(p) == Some(ports)
    ensures Ready(Rewritten(p, Src, own), own, dst, ports)
  {
    hide Rewritten, IpHeaderValid;
    RewriteKeepsIpHeader(p, Src, own);
    ReadsAlike(p, Src, own);
  }

  lemma UnicastLetOut(f: Filter.State, q: seq<Byte>, own: Addr, subnet: RoomSubnet, now: nat, dst: Addr, ports: Ports)
    requires subnet.Valid() && Ready(q, own, dst, ports) && !subnet.IsBroadcast(dst)
    ensures f.Outbound(q, subnet, now)
         == (f.Remembered(Filter.FlowKey(ports.proto, ports.sport, dst, ports.dport), now), true)
    ensures OwnPortUnreachable(q, own).None? && !IsChatterBroadcast(q, subnet)
  {
    hide RoomSubnet.Valid, RoomSubnet.IsBroadcast, Filter.State.Remembered;
    TransportProto(q);
  }

  /** What is sent to a member, by what it does to both tables. */
  lemma UnicastTables(s: State, p: seq<Byte>, own: Addr, subnet: RoomSubnet, now: nat, probe: bool,
                      to: Addr, dst: Addr, ports: Ports)
    requires subnet.Valid() && FromProgram(s, p, own, subnet, to, dst, ports)
    requires !s.rebinder.Redirects(dst, subnet) && !subnet.IsBroadcast(dst)
    ensures s.Up(p, Some(own), subnet, now, probe)
         == (s.Synced().(filter := s.Synced().filter.Remembered(
                           Filter.FlowKey(ports.proto, ports.sport, dst, ports.dport), now),
                         rebinder := s.rebinder.Opened(ports, to, dst, subnet, now, probe)),
             Some(Rewritten(p, Src, own)))
  {
    hide RoomSubnet.Valid, RoomSubnet.IsBroadcast, RoomSubnet.IsPseudoBroadcast, Rewritten, Transport, Filter.Merged,
         Rebinder.State.Outbound, Rebinder.State.Opened, Filter.State.Outbound, Filter.State.Remembered,
         OwnPortUnreachable, IsChatterBroadcast, Rebinder.State.Redirects;
    UnicastTranslated(s.rebinder, p, own, subnet, now, probe, to, dst, ports);
    UnicastReady(p, own, to, dst, ports);
    UnicastLetOut(s.Synced().filter, Rewritten(p, Src, own), own, subnet, now, dst, ports);
    var r := s.rebinder.Outbound(p, own, subnet, now, probe).0;
    assert s.(rebinder := r).Synced() == s.Synced().(rebinder := r);
  }

  /** A unicast leaves with the room address, otherwise untouched up to its checksums, and both tables know it. */
  lemma UnicastLeaves(s: State, p: seq<Byte>, own: Addr, subnet: RoomSubnet, now: nat, probe: bool,
                      to: Addr, dst: Addr, ports: Ports)
    requires subnet.Valid() && FromProgram(s, p, own, subnet, to, dst, ports)
    requires !s.rebinder.Redirects(dst, subnet) && !subnet.IsBroadcast(dst)
    requires var key := Filter.FlowKey(ports.proto, ports.sport, dst, ports.dport);
      s.filter.Fits(key, now) && RoomFor(s.rebinder.flows, key, now)
    ensures var (after, sent) := s.Up(p, Some(own), subnet, now, probe);
      var key := Filter.FlowKey(ports.proto, ports.sport, dst, ports.dport);
      && sent == Some(Rewritten(p, Src, own))
      && key in after.filter.flows && after.filter.flows[key] == now
      && Holds(after.rebinder.flows, key, to, now)
  {
    hide RoomSubnet.Valid, RoomSubnet.IsBroadcast, RoomSubnet.IsPseudoBroadcast, FromProgram, State.Up, Rewritten;
    UnicastTables(s, p, own, subnet, now, probe, to, dst, ports);
    var key := Filter.FlowKey(ports.proto, ports.sport, dst, ports.dport);
    var known := if key in s.rebinder.flows then Some(s.rebinder.flows[key]) else None;
    RememberedWhen(s.rebinder.flows, key,
                   Rebinder.Flow(to, s.rebinder.Pinned(known, ports.proto, to, probe), now), now);
    RememberedFits(s.Synced().filter, key, now);
  }

  lemma RememberedFits(f: Filter.State, key: Filter.FlowKey, now: nat)
    ensures f.Fits(key, now) <==> key in f.Remembered(key, now).flows && f.Remembered(key, now).flows[key] == now
  {
  }

  // ---------------------------------------------------------------- and back

  /** A UDP or TCP packet, or first piece, for this member, that is not a room check's probe. */
  predicate Answers(r: seq<Byte>, own: Addr, from: Addr, ports: Ports) {
    && WellFormed(r) && Endpoints(r) == Some((from, own)) && !RoomCheck.IsProbe(r)
    && Transport(r) == Some(Ports(ports.proto, ports.dport, ports.sport))
  }

  /** The packet the program is handed: addressed to it, from the peer, its transport as it came. */
  predicate HandedTo(x: seq<Byte>, r: seq<Byte>, to: Addr) {
    && WellFormed(x) && WellFormed(r)
    && AddrAt(x, 16) == to && AddrAt(x, 12) == AddrAt(r, 12) && HeaderLen(x) == HeaderLen(r)
    && x[HeaderLen(x)..] == Rewritten(r, Dst, to)[HeaderLen(x)..]
    && (IpHeaderValid(r) ==> IpHeaderValid(x))
  }

  /** Delivering edits the destination and, for a pinned socket, the DSCP: nothing the transport covers. */
  lemma DeliveredIs(r: seq<Byte>, target: Rebinder.Target)
    requires WellFormed(r) && Rewrites(r, Dst, target.to)
    ensures Rebinder.Delivered(r, target).Some? && HandedTo(Rebinder.Delivered(r, target).value, r, target.to)
  {
    hide Rewritten, WithDscp, IpHeaderValid;
    RewriteKeepsIpHeader(r, Dst, target.to);
    var q := Rewritten(r, Dst, target.to);
    SliceIndex(q, r, 0, 10);
    if target.pinned {
      FragmentLaws.DscpKeeps(q, Rebinder.PINNED_DSCP);
      var x := WithDscp(q, Rebinder.PINNED_DSCP);
      assert x[HeaderLen(x)..] == q[HeaderLen(x)..];
    }
  }

  /** An answer on a flow both tables hold is handed to the program that opened it. */
  lemma AnswerComesBack(s: State, r: seq<Byte>, own: Addr, subnet: RoomSubnet, now: nat, from: Addr, ports: Ports,
                        key: Filter.FlowKey, to: Addr)
    requires subnet.Valid() && Answers(r, own, from, ports) && to != own
    requires FilterLaws.Mirrors(r, key)
    requires s.filter.Live(key, now) || s.Synced().filter.Admits(ports.proto, ports.sport)
    requires var (_, t) := s.rebinder.TargetOf(ports.proto, ports.sport, from, ports.dport, now);
      t.Some? && t.value.to == to
    ensures var outcome := s.Down(r, Some(own), subnet, now).1;
      outcome.Handed? && HandedTo(outcome.packet, r, to)
  {
    if s.filter.Live(key, now) {
      FilterLaws.LiveIsAdmitted(s.Synced().filter, r, key, now);
    }
    TransportProto(r);
    var target := s.rebinder.TargetOf(ports.proto, ports.sport, from, ports.dport, now).1;
    assert s.rebinder.Lookup(r, now).1 == target;
    DeliveredIs(r, target.value);
  }

  lemma MirrorKey(r: seq<Byte>, own: Addr, from: Addr, ports: Ports)
    requires Answers(r, own, from, ports)
    ensures FilterLaws.ReplyKey(r) == Some(Filter.FlowKey(ports.proto, ports.sport, from, ports.dport))
  {
    TransportProto(r);
  }

  // ---------------------------------------------------------------- a conversation

  /** A program on `to` and a member at `dst`, and their ports. */
  datatype Talk = Talk(to: Addr, dst: Addr, ports: Ports) {
    function Key(): Filter.FlowKey { Filter.FlowKey(ports.proto, ports.sport, dst, ports.dport) }
  }

  /** The program sends on it. */
  predicate Says(s: State, e: Event, own: Addr, subnet: RoomSubnet, talk: Talk)
    requires subnet.Valid()
  {
    && e.Sent? && FromProgram(s, e.p, own, subnet, talk.to, talk.dst, talk.ports)
    && !s.rebinder.Redirects(talk.dst, subnet) && !subnet.IsBroadcast(talk.dst)
  }

  /** The member answers. */
  predicate Hears(e: Event, own: Addr, talk: Talk) { e.Received? && Answers(e.p, own, talk.dst, talk.ports) }

  /** When each table last noted the conversation; the filter's note may have run out, its port being open. */
  datatype Clock = Clock(filter: Option<nat>, translator: nat) {
    predicate Filters(now: nat) { filter.Some? && filter.value <= now < filter.value + Filter.FLOW_IDLE }
    predicate Translates(now: nat) { translator <= now < translator + Rebinder.FLOW_IDLE }
  }

  /** Its own port is one the policy opens. */
  predicate PortOpen(s: State, talk: Talk) { s.Synced().filter.Admits(talk.ports.proto, talk.ports.sport) }

  /** Sending is noted where there is room; an answer let in is noted, by the filter unless its port is open. */
  function Ticked(s: State, e: Event, own: Addr, subnet: RoomSubnet, talk: Talk, c: Clock): Clock
    requires subnet.Valid()
  {
    var noted := if c.Filters(e.now) then c.filter else None;
    if Says(s, e, own, subnet, talk) then
      Clock(if s.filter.Fits(talk.Key(), e.now) then Some(e.now) else noted,
            if RoomFor(s.rebinder.flows, talk.Key(), e.now) then e.now else c.translator)
    else if Hears(e, own, talk) && (PortOpen(s, talk) || noted.Some?) then
      Clock(if PortOpen(s, talk) then noted else Some(e.now), e.now)
    else Clock(noted, c.translator)
  }

  function ClockAfter(s: State, es: seq<Event>, own: Addr, subnet: RoomSubnet, talk: Talk, c: Clock): Clock
    requires subnet.Valid()
    decreases |es|
  {
    if es == [] then c
    else ClockAfter(Step(s, es[0], own, subnet), es[1..], own, subnet, talk, Ticked(s, es[0], own, subnet, talk, c))
  }

  /** In a run, the translator is never left without a note for Rebinder.FLOW_IDLE. */
  predicate KeptUp(s: State, es: seq<Event>, own: Addr, subnet: RoomSubnet, talk: Talk, c: Clock)
    requires subnet.Valid()
    decreases |es|
  {
    es != [] ==>
      && c.Translates(es[0].now)
      && KeptUp(Step(s, es[0], own, subnet), es[1..], own, subnet, talk, Ticked(s, es[0], own, subnet, talk, c))
  }

  predicate InOrder(es: seq<Event>) { forall i, j :: 0 <= i <= j < |es| ==> es[i].now <= es[j].now }

  /** A run in order, within one FLOW_IDLE of the filter's, keeps the conversation up, whatever is in it. */
  lemma {:induction false} WindowKeepsUp(s: State, es: seq<Event>, own: Addr, subnet: RoomSubnet, talk: Talk,
                                         c: Clock, t: nat, later: nat)
    requires subnet.Valid() && InOrder(es) && Within(es, t, Filter.FLOW_IDLE)
    requires c.filter.Some? && t <= c.filter.value && t <= c.translator && later < t + Filter.FLOW_IDLE
    requires c.filter.value <= later && c.translator <= later
    requires forall i :: 0 <= i < |es| ==> c.filter.value <= es[i].now <= later && c.translator <= es[i].now
    ensures KeptUp(s, es, own, subnet, talk, c)
    ensures var after := ClockAfter(s, es, own, subnet, talk, c); after.Filters(later) && after.Translates(later)
    decreases |es|
  {
    hide Says, Hears, PortOpen, Step, RoomFor, Filter.State.Fits, RoomSubnet.Valid;
    if es != [] {
      WindowKeepsUp(Step(s, es[0], own, subnet), es[1..], own, subnet, talk, Ticked(s, es[0], own, subnet, talk, c),
                    t, later);
    }
  }

  /** Both tables note the conversation, as late as the clock says or later. */
  predicate Noted(s: State, talk: Talk, c: Clock) {
    && Holds(s.rebinder.flows, talk.Key(), talk.to, c.translator)
    && (c.filter.Some? ==> talk.Key() in s.filter.flows && c.filter.value <= s.filter.flows[talk.Key()])
  }

  lemma SaysNoted(s: State, e: Event, own: Addr, subnet: RoomSubnet, talk: Talk)
    requires subnet.Valid() && Says(s, e, own, subnet, talk)
    ensures var after, key := Step(s, e, own, subnet), talk.Key();
      && (s.filter.Fits(key, e.now) ==> key in after.filter.flows && after.filter.flows[key] == e.now)
      && (RoomFor(s.rebinder.flows, key, e.now) ==> Holds(after.rebinder.flows, key, talk.to, e.now))
  {
    hide RoomSubnet.Valid, RoomSubnet.IsBroadcast, RoomSubnet.IsPseudoBroadcast, FromProgram, State.Up, RoomFor;
    UnicastTables(s, e.p, own, subnet, e.now, e.probe, talk.to, talk.dst, talk.ports);
    var key := talk.Key();
    var known := if key in s.rebinder.flows then Some(s.rebinder.flows[key]) else None;
    RememberedWhen(s.rebinder.flows, key,
                   Rebinder.Flow(talk.to, s.rebinder.Pinned(known, talk.ports.proto, talk.to, e.probe), e.now), e.now);
    RememberedFits(s.Synced().filter, key, e.now);
  }

  lemma HearsNoted(s: State, r: seq<Byte>, own: Addr, subnet: RoomSubnet, now: nat, talk: Talk)
    requires subnet.Valid() && Answers(r, own, talk.dst, talk.ports)
    requires Rebinder.LiveIn(s.rebinder.flows, talk.Key(), now)
    requires PortOpen(s, talk) || s.filter.Live(talk.Key(), now)
    ensures var after, key := s.Down(r, Some(own), subnet, now).0, talk.Key();
      && (PortOpen(s, talk) || (key in after.filter.flows && after.filter.flows[key] == now))
      && key in after.rebinder.flows && after.rebinder.flows[key].seen == now
      && after.rebinder.flows[key].to == s.rebinder.flows[key].to
  {
    hide RoomSubnet.Valid, Filter.Merged, RoomCheck.IsProbe, RoomCheck.Answer, Rebinder.Delivered, QuotedTransport;
    MirrorKey(r, own, talk.dst, talk.ports);
    TransportProto(r);
  }

  lemma TickKeeps(s: State, e: Event, own: Addr, subnet: RoomSubnet, talk: Talk, c: Clock)
    requires subnet.Valid() && Noted(s, talk, c) && c.Translates(e.now)
    requires e.Sent? ==> !Takes(OpeningOf(s.rebinder, e.p, own, subnet), subnet, {talk.Key()}, {}, talk.to)
    ensures Noted(Step(s, e, own, subnet), talk, Ticked(s, e, own, subnet, talk, c))
  {
    hide State.Up, State.Down, Says, Answers, PortOpen, Takes, RoomSubnet.Valid, RoomFor, Filter.State.Fits;
    FlowKept(s, e, own, subnet, talk.Key(), talk.to, c.translator);
    if c.Filters(e.now) {
      StepKeepsFilter(s, e, own, subnet, talk.Key(), c.filter.value);
    }
    if Says(s, e, own, subnet, talk) {
      SaysNoted(s, e, own, subnet, talk);
    } else if Hears(e, own, talk) && (PortOpen(s, talk) || c.Filters(e.now)) {
      HearsNoted(s, e.p, own, subnet, e.now, talk);
    }
  }

  lemma {:induction false} ConversationNoted(s: State, es: seq<Event>, own: Addr, subnet: RoomSubnet, talk: Talk,
                                             c: Clock)
    requires subnet.Valid() && Noted(s, talk, c) && KeptUp(s, es, own, subnet, talk, c)
    requires Unshared(s, es, own, subnet, {talk.Key()}, {}, talk.to)
    ensures Noted(Run(s, es, own, subnet), talk, ClockAfter(s, es, own, subnet, talk, c))
    decreases |es|
  {
    hide Noted, Ticked, Step, RoomSubnet.Valid;
    if es != [] {
      TickKeeps(s, es[0], own, subnet, talk, c);
      ConversationNoted(Step(s, es[0], own, subnet), es[1..], own, subnet, talk,
                        Ticked(s, es[0], own, subnet, talk, c));
    }
  }

  /**
   Unicast.  What a program on some other local address sends to a member leaves with the room
   address, and the member's answers are let in and handed to that program, whatever the pump
   carries meanwhile and however long they talk: if there was room in both tables, no other local
   address took the flow over, and each table noted a packet, either way, within its own FLOW_IDLE.
   While the policy opens the program's port, the filter lets its answers in whatever it noted.
   */
  lemma {:induction false} UnicastRoundTrip(s: State, p: seq<Byte>, own: Addr, subnet: RoomSubnet, now: nat,
                                            probe: bool, talk: Talk, es: seq<Event>, r: seq<Byte>, later: nat)
    requires subnet.Valid() && Says(s, Sent(p, now, probe), own, subnet, talk)
    requires s.filter.Fits(talk.Key(), now) && RoomFor(s.rebinder.flows, talk.Key(), now)
    requires var sending := s.Up(p, Some(own), subnet, now, probe).0;
      && Unshared(sending, es, own, subnet, {talk.Key()}, {}, talk.to)
      && KeptUp(sending, es, own, subnet, talk, Clock(Some(now), now))
      && var c := ClockAfter(sending, es, own, subnet, talk, Clock(Some(now), now));
         c.Translates(later) && (c.Filters(later) || PortOpen(Run(sending, es, own, subnet), talk))
    requires Answers(r, own, talk.dst, talk.ports)
    ensures var (sending, sent) := s.Up(p, Some(own), subnet, now, probe);
      && sent == Some(Rewritten(p, Src, own)) && AddrAt(sent.value, 12) == own
      && var outcome := Run(sending, es, own, subnet).Down(r, Some(own), subnet, later).1;
         outcome.Handed? && HandedTo(outcome.packet, r, talk.to)
  {
    hide RoomSubnet.Valid, State.Up, State.Down, KeptUp, Unshared, ClockAfter, Answers, HandedTo, Rewritten, RoomFor,
         Filter.State.Fits, Rebinder.State.Redirects, RoomSubnet.IsBroadcast;
    var key, sending := talk.Key(), s.Up(p, Some(own), subnet, now, probe).0;
    UnicastLeaves(s, p, own, subnet, now, probe, talk.to, talk.dst, talk.ports);
    RewriteKeepsIpHeader(p, Src, own);
    ConversationNoted(sending, es, own, subnet, talk, Clock(Some(now), now));
    MirrorKey(r, own, talk.dst, talk.ports);
    AnswerComesBack(Run(sending, es, own, subnet), r, own, subnet, later, talk.dst, talk.ports, key, talk.to);
  }
}
