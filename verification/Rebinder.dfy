/**
 Address translation in the pump (`lan_rebind.rs`).  Outgoing sources become the room address, and
 three tables remember which local address each stood for; incoming destinations become that one.

 Whether a socket is pinned to another interface is the operating system's answer; each outbound
 packet brings it as `probe`.
 */
module Rebinder {
  import opened Wire
  import opened Ipv4
  import opened Subnet
  import opened Rewrite
  import Filter

  /** Milliseconds. */
  const FLOW_IDLE := 300_000
  const FRAGMENT_WINDOW := 5_000
  const MAX_FLOWS := 4096
  const PINNED_DSCP := 1

  datatype Rebound = Rebound(port: Filter.LanPort, address: Addr, pinned: bool)

  datatype Survey = Survey(locals: seq<Addr>, broadcasts: seq<Addr>, rebound: seq<Rebound>)

  datatype Flow = Flow(to: Addr, pinned: bool, seen: nat)

  type FlowKey = Filter.FlowKey

  /** A broadcast's ports: the one it was sent from and the one it asked on. */
  datatype SearchKey = SearchKey(proto: LanProto, own: U16, searched: U16)

  datatype Target = Target(to: Addr, pinned: bool)

  datatype Vouched = Vouched(target: Target, at: nat)

  /** What a rewrite outbound did. */
  datatype Done = Done(source: bool, broadcast: bool)

  // ---------------------------------------------------------------- tables

  function Recent<K(!new)>(m: map<K, Flow>, now: nat): (r: map<K, Flow>)
    ensures forall k :: k in r <==> k in m && Filter.Since(now, m[k].seen) < FLOW_IDLE
    ensures forall k :: k in r ==> r[k] == m[k]
  {
    map k | k in m && Filter.Since(now, m[k].seen) < FLOW_IDLE :: m[k]
  }

  /** Sweep for a new key into a full table; then insert, new or not, only below capacity. */
  function Remember<K(!new)>(m: map<K, Flow>, key: K, flow: Flow, now: nat): map<K, Flow> {
    var kept := if key !in m && |m| >= MAX_FLOWS then Recent(m, now) else m;
    if |kept| < MAX_FLOWS then kept[key := flow] else kept
  }

  predicate LiveIn<K(!new)>(m: map<K, Flow>, key: K, now: nat) {
    key in m && Filter.Since(now, m[key].seen) < FLOW_IDLE
  }

  function RecentPieces(m: map<Filter.FragmentKey, Vouched>, now: nat): (r: map<Filter.FragmentKey, Vouched>)
    ensures forall k :: k in r <==> k in m && Filter.Since(now, m[k].at) < FRAGMENT_WINDOW
    ensures forall k :: k in r ==> r[k] == m[k]
  {
    map k | k in m && Filter.Since(now, m[k].at) < FRAGMENT_WINDOW :: m[k]
  }

  /** Where the survey found the game's port, if on another address. */
  function ReboundTo(rebound: seq<Rebound>, proto: LanProto, port: U16): Option<Target> {
    if rebound == [] then None
    else if rebound[0].port == Filter.LanPort(proto, port) then Some(Target(rebound[0].address, rebound[0].pinned))
    else ReboundTo(rebound[1..], proto, port)
  }

  /** The packet as delivered to `target`. */
  function Delivered(p: seq<Byte>, target: Target): Option<seq<Byte>>
    requires |p| > 0
  {
    if !Rewrites(p, Dst, target.to) then None
    else
      var q := Rewritten(p, Dst, target.to);
      Some(if target.pinned then WithDscp(q, PINNED_DSCP) else q)
  }

  // ---------------------------------------------------------------- the state and its steps

  datatype State = State(survey: Survey, flows: map<FlowKey, Flow>, searches: map<SearchKey, Flow>,
                         fragments: map<Filter.FragmentKey, Vouched>)
  {
    /** Whether a socket is pinned: a flow from the same address knows; else UDP is probed. */
    function Pinned(known: Option<Flow>, proto: LanProto, src: Addr, probe: bool): bool {
      if known.Some? && known.value.to == src then known.value.pinned else proto == Udp && probe
    }

    function Opened(ports: Ports, src: Addr, dst: Addr, subnet: RoomSubnet, now: nat, probe: bool): State
      requires subnet.Valid()
    {
      if subnet.IsBroadcast(dst) then
        var key := SearchKey(ports.proto, ports.sport, ports.dport);
        var known := if key in searches then Some(searches[key]) else None;
        this.(searches := Remember(searches, key, Flow(src, Pinned(known, ports.proto, src, probe), now), now))
      else
        var key := Filter.FlowKey(ports.proto, ports.sport, dst, ports.dport);
        var known := if key in flows then Some(flows[key]) else None;
        this.(flows := Remember(flows, key, Flow(src, Pinned(known, ports.proto, src, probe), now), now))
    }

    /** A broadcast meant for the room although its address is not the room's. */
    predicate Redirects(dst: Addr, subnet: RoomSubnet)
      requires subnet.Valid()
    {
      dst in survey.broadcasts || subnet.IsPseudoBroadcast(dst)
    }

    /** The packet with another network's broadcast made the room's. */
    function Redirected(p: seq<Byte>, subnet: RoomSubnet): (q: seq<Byte>)
      requires subnet.Valid() && Endpoints(p).Some?
      ensures |q| == |p|
    {
      if Redirects(Endpoints(p).value.1, subnet) then Rewritten(p, Dst, subnet.Broadcast()) else p
    }

    function Outbound(p: seq<Byte>, room: Addr, subnet: RoomSubnet, now: nat, probe: bool): (State, seq<Byte>, Done)
      requires subnet.Valid()
    {
      match Endpoints(p)
      case None => (this, p, Done(false, false))
      case Some((src, dst)) =>
        var broadcast := Redirects(dst, subnet) && Rewrites(p, Dst, subnet.Broadcast());
        var q := Redirected(p, subnet);
        if src == room || src !in survey.locals then (this, q, Done(false, broadcast))
        else
          var dst := match Endpoints(q) case Some((_, d)) => d case None => dst;
          var s := match Transport(q)
            case None => this
            case Some(ports) => Opened(ports, src, dst, subnet, now, probe);
          (s, Rewritten(q, Src, room), Done(Rewrites(q, Src, room), broadcast))
    }

    /** Where a packet for `port` from `peer:peerPort` goes. */
    function TargetOf(proto: LanProto, port: U16, peer: Addr, peerPort: U16, now: nat): (State, Option<Target>) {
      var flow, search := Filter.FlowKey(proto, port, peer, peerPort), SearchKey(proto, port, peerPort);
      if LiveIn(flows, flow, now) then
        (this.(flows := flows[flow := flows[flow].(seen := now)]), Some(Target(flows[flow].to, flows[flow].pinned)))
      else if LiveIn(searches, search, now) then
        (this.(searches := searches[search := searches[search].(seen := now)]),
         Some(Target(searches[search].to, searches[search].pinned)))
      else (this, ReboundTo(survey.rebound, proto, port))
    }

    /** The target of an admitted packet: by its datagram's first piece, by the packet it quotes, or by its ports. */
    function Lookup(p: seq<Byte>, now: nat): (State, Option<Target>)
      requires Endpoints(p).Some?
    {
      var src := Endpoints(p).value.0;
      if FragmentOffset(p) != 0 then
        var key := Filter.FragmentKey(src, Word(p, 4), p[9]);
        (this, if key in fragments && Filter.Since(now, fragments[key].at) < FRAGMENT_WINDOW
               then Some(fragments[key].target) else None)
      else if p[9] == PROTO_ICMP then
        match QuotedTransport(p)
        case None => (this, None)
        case Some(q) => TargetOf(q.ports.proto, q.ports.sport, q.dst, q.ports.dport, now)
      else
        match Transport(p)
        case None => (this, None)
        case Some(ports) => TargetOf(ports.proto, ports.dport, src, ports.sport, now)
    }

    /** Later fragments have no ports; they follow what was decided for the first. */
    function Noted(p: seq<Byte>, target: Target, now: nat): State
      requires Endpoints(p).Some?
    {
      if FragmentOffset(p) == 0 && MoreFragments(p) then
        var key := Filter.FragmentKey(Endpoints(p).value.0, Word(p, 4), p[9]);
        this.(fragments := RecentPieces(fragments, now)[key := Vouched(target, now)])
      else this
    }

    function Inbound(p: seq<Byte>, room: Addr, now: nat): (State, Option<seq<Byte>>) {
      match Endpoints(p)
      case None => (this, None)
      case Some((src, dst)) =>
        if dst != room then (this, None)
        else
          var (s, target) := Lookup(p, now);
          match target
          case None => (s, None)
          case Some(t) => (s.Noted(p, t, now), Delivered(p, t))
    }
  }

  // ---------------------------------------------------------------- the class

  class Rebinder {
    var survey: Survey
    var flows: map<FlowKey, Flow>
    var searches: map<SearchKey, Flow>
    var fragments: map<Filter.FragmentKey, Vouched>

    function Model(): State
      reads this
    {
      State(survey, flows, searches, fragments)
    }

    constructor ()
      ensures Model() == State(Survey([], [], []), map[], map[], map[])
    {
      survey := Survey([], [], []);
      flows, searches, fragments := map[], map[], map[];
    }

    /** Take a new survey; whether what is translated changed. */
    method Update(survey: Survey) returns (changed: bool)
      modifies this`survey
      ensures Model() == old(Model()).(survey := survey)
      ensures changed == (survey.rebound != old(this.survey).rebound)
    {
      changed := survey.rebound != this.survey.rebound;
      this.survey := survey;
    }

    method OpenSearch(ports: Ports, src: Addr, now: nat, probe: bool, subnet: RoomSubnet, dst: Addr)
      requires subnet.Valid() && subnet.IsBroadcast(dst)
      modifies this`searches
      ensures Model() == old(Model()).Opened(ports, src, dst, subnet, now, probe)
    {
      var key := SearchKey(ports.proto, ports.sport, ports.dport);
      var pinned := if key in searches && searches[key].to == src then searches[key].pinned
                    else ports.proto == Udp && probe;
      if key !in searches && |searches| >= MAX_FLOWS {
        searches := map k | k in searches && Filter.Since(now, searches[k].seen) < FLOW_IDLE :: searches[k];
        assert searches == Recent(old(searches), now);
      }
      if |searches| < MAX_FLOWS {
        searches := searches[key := Flow(src, pinned, now)];
      }
    }

    method OpenFlow(ports: Ports, src: Addr, now: nat, probe: bool, subnet: RoomSubnet, dst: Addr)
      requires subnet.Valid() && !subnet.IsBroadcast(dst)
      modifies this`flows
      ensures Model() == old(Model()).Opened(ports, src, dst, subnet, now, probe)
    {
      var key := Filter.FlowKey(ports.proto, ports.sport, dst, ports.dport);
      var pinned := if key in flows && flows[key].to == src then flows[key].pinned
                    else ports.proto == Udp && probe;
      if key !in flows && |flows| >= MAX_FLOWS {
        flows := map k | k in flows && Filter.Since(now, flows[k].seen) < FLOW_IDLE :: flows[k];
        assert flows == Recent(old(flows), now);
      }
      if |flows| < MAX_FLOWS {
        flows := flows[key := Flow(src, pinned, now)];
      }
    }

    /** Translate an outgoing packet, in its buffer. */
    method Outbound(packet: array<Byte>, room: Addr, subnet: RoomSubnet, now: nat, probe: bool) returns (done: Done)
      requires subnet.Valid()
      modifies this`flows, this`searches, packet
      ensures (Model(), packet[..], done) == old(Model()).Outbound(old(packet[..]), room, subnet, now, probe)
    {
      var ends := Endpoints(packet[..]);
      if ends.None? {
        return Done(false, false);
      }
      var (src, dst) := ends.value;
      var broadcast := false;
      if dst in survey.broadcasts || subnet.IsPseudoBroadcast(dst) {
        broadcast := RewriteInPlace(packet, Dst, subnet.Broadcast());
      }
      var p := packet[..];
      assert p == Model().Redirected(old(packet[..]), subnet);
      if src == room || src !in survey.locals {
        return Done(false, broadcast);
      }
      var ends' := Endpoints(p);
      if ends'.Some? {
        dst := ends'.value.1;
      }
      var ports := Transport(p);
      if ports.Some? {
        if subnet.IsBroadcast(dst) {
          OpenSearch(ports.value, src, now, probe, subnet, dst);
        } else {
          OpenFlow(ports.value, src, now, probe, subnet, dst);
        }
      }
      assert packet[..] == p;
      var source := RewriteInPlace(packet, Src, room);
      done := Done(source, broadcast);
    }

    method FindTarget(proto: LanProto, port: U16, peer: Addr, peerPort: U16, now: nat) returns (r: Option<Target>)
      modifies this`flows, this`searches
      ensures (Model(), r) == old(Model()).TargetOf(proto, port, peer, peerPort, now)
    {
      var flow, search := Filter.FlowKey(proto, port, peer, peerPort), SearchKey(proto, port, peerPort);
      if flow in flows && Filter.Since(now, flows[flow].seen) < FLOW_IDLE {
        var f := flows[flow];
        flows := flows[flow := f.(seen := now)];
        return Some(Target(f.to, f.pinned));
      }
      if search in searches && Filter.Since(now, searches[search].seen) < FLOW_IDLE {
        var f := searches[search];
        searches := searches[search := f.(seen := now)];
        return Some(Target(f.to, f.pinned));
      }
      r := ReboundTo(survey.rebound, proto, port);
    }

    /** The target of an admitted packet. */
    method Find(p: seq<Byte>, now: nat) returns (r: Option<Target>)
      requires Endpoints(p).Some?
      modifies this`flows, this`searches
      ensures (Model(), r) == old(Model()).Lookup(p, now)
    {
      var src := Endpoints(p).value.0;
      if FragmentOffset(p) != 0 {
        var key := Filter.FragmentKey(src, Word(p, 4), p[9]);
        if key in fragments && Filter.Since(now, fragments[key].at) < FRAGMENT_WINDOW {
          return Some(fragments[key].target);
        }
        return None;
      }
      if p[9] == PROTO_ICMP {
        var quoted := QuotedTransport(p);
        if quoted.None? {
          return None;
        }
        var ports := quoted.value.ports;
        r := FindTarget(ports.proto, ports.sport, quoted.value.dst, ports.dport, now);
      } else {
        var ports := Transport(p);
        if ports.None? {
          return None;
        }
        r := FindTarget(ports.value.proto, ports.value.dport, src, ports.value.sport, now);
      }
    }

    /** Translate a packet the filter let in; none if it is to be handed over as it is. */
    method Inbound(p: seq<Byte>, room: Addr, now: nat) returns (r: Option<seq<Byte>>)
      modifies this`flows, this`searches, this`fragments
      ensures (Model(), r) == old(Model()).Inbound(p, room, now)
    {
      var ends := Endpoints(p);
      if ends.None? || ends.value.1 != room {
        return None;
      }
      var target := Find(p, now);
      if target.None? {
        return None;
      }
      if FragmentOffset(p) == 0 && MoreFragments(p) {
        var key := Filter.FragmentKey(ends.value.0, Word(p, 4), p[9]);
        var kept := map k | k in fragments && Filter.Since(now, fragments[k].at) < FRAGMENT_WINDOW :: fragments[k];
        assert kept == RecentPieces(fragments, now);
        fragments := kept[key := Vouched(target.value, now)];
      }
      r := Deliver(p, target.value);
    }
  }

  /** A copy of `p` edited for `target`. */
  method Deliver(p: seq<Byte>, target: Target) returns (r: Option<seq<Byte>>)
    requires |p| > 0
    ensures r == Delivered(p, target)
  {
    var out := new Byte[|p|](i requires 0 <= i < |p| => p[i]);
    assert out[..] == p;
    var done := RewriteInPlace(out, Dst, target.to);
    if !done {
      return None;
    }
    if target.pinned {
      SetDscp(out, PINNED_DSCP);
    }
    r := Some(out[..]);
  }
}
