/**
 The per-member packet filter (`lan_filter.rs`): a connection-tracking firewall in the pump.
 What comes in goes to a port the policy lists or answers something that went out.
 */
module Filter {
  import opened Wire
  import opened Ipv4
  import opened Subnet

  /** Milliseconds. */
  const FLOW_IDLE := 180_000
  const FRAGMENT_WINDOW := 30_000
  const MAX_FLOWS := 4096
  const LOWEST_ALLOWABLE_PORT := 1024

  const OS_CHATTER: set<int> := {53, 67, 68, 123, 137, 138, 139, 445, 1900, 3702, 5353, 5355,
                                 27031, 27032, 27033, 27034, 27035, 27036}

  const REMOTE_SERVICES: set<int> := {1433, 1434, 1521, 2049, 2375, 2376, 3306, 3389, 5432,
                                      5900, 5901, 5902, 5903, 5985, 5986, 6379, 9200, 11211, 27017}

  predicate IsOsChatter(port: U16) { port in OS_CHATTER }

  /** Whether an extra list may hold `port`. */
  predicate IsAllowable(port: U16) {
    port >= LOWEST_ALLOWABLE_PORT && port !in OS_CHATTER && port !in REMOTE_SERVICES
  }

  datatype LanPort = LanPort(proto: LanProto, port: U16)

  datatype Policy = Policy(ports: seq<LanPort>, any: bool) {
    predicate Lists(proto: LanProto, port: U16) { LanPort(proto, port) in ports }
    predicate Declares(proto: LanProto, port: U16) { any || Lists(proto, port) }
  }

  // ---------------------------------------------------------------- reading a packet

  datatype Fragment = Whole | First | Rest

  datatype Parsed = Parsed(src: Addr, dst: Addr, protocol: Byte, id: U16, fragment: Fragment,
                           ports: Option<(U16, U16)>)

  function FragmentOf(p: seq<Byte>): Fragment
    requires |p| >= 8
  {
    if FragmentOffset(p) != 0 then Rest else if MoreFragments(p) then First else Whole
  }

  function Parse(p: seq<Byte>): Option<Parsed> {
    match Endpoints(p)
    case None => None
    case Some((src, dst)) =>
      var ihl := HeaderLen(p);
      if |p| < ihl then None
      else if ProtoOf(p[9]).Some? && FragmentOf(p) != Rest then
        if |p| < ihl + 4 then None
        else Some(Parsed(src, dst, p[9], Word(p, 4), FragmentOf(p), Some((Word(p, ihl), Word(p, ihl + 2)))))
      else Some(Parsed(src, dst, p[9], Word(p, 4), FragmentOf(p), None))
  }

  // ---------------------------------------------------------------- the state and its steps

  /** A conversation begun from here, with its two ports and the other end's address. */
  datatype FlowKey = FlowKey(proto: LanProto, own: U16, far: Addr, farPort: U16)

  /** Stands for every member, in the flow of a broadcast. */
  const ANY_MEMBER := UNSPECIFIED

  datatype FragmentKey = FragmentKey(src: Addr, id: U16, protocol: Byte)

  /** Time since `then_`, never negative. */
  function Since(now: nat, before: nat): nat { if now >= before then now - before else 0 }

  function Fresh<K(!new)>(m: map<K, nat>, now: nat, window: nat): (r: map<K, nat>)
    ensures forall k :: k in r <==> k in m && Since(now, m[k]) < window
    ensures forall k :: k in r ==> r[k] == m[k]
  {
    map k | k in m && Since(now, m[k]) < window :: m[k]
  }

  datatype State = State(policy: Policy, anyHigh: bool, flows: map<FlowKey, nat>, fragments: map<FragmentKey, nat>) {

    predicate Admits(proto: LanProto, port: U16) {
      policy.Declares(proto, port) || (anyHigh && IsAllowable(port))
    }

    predicate Live(key: FlowKey, now: nat) { key in flows && Since(now, flows[key]) < FLOW_IDLE }

    /** Whether a new flow would fit: known, below capacity, or after sweeping idle ones. */
    predicate Fits(key: FlowKey, now: nat) {
      key in flows || |flows| < MAX_FLOWS || |Fresh(flows, now, FLOW_IDLE)| < MAX_FLOWS
    }

    function Remembered(key: FlowKey, now: nat): State {
      if key !in flows && |flows| >= MAX_FLOWS then
        var kept := Fresh(flows, now, FLOW_IDLE);
        if |kept| >= MAX_FLOWS then this.(flows := kept) else this.(flows := kept[key := now])
      else this.(flows := flows[key := now])
    }

    function Refreshed(key: FlowKey, now: nat): (State, bool) {
      if Live(key, now) then (this.(flows := flows[key := now]), true) else (this, false)
    }

    /** Whether a broadcast to `port` is the game's: the system's chatter only if the pack names it. */
    predicate AdmitsBroadcast(proto: LanProto, port: U16) {
      if IsOsChatter(port) then policy.Lists(proto, port) else Admits(proto, port)
    }

    function Outbound(p: seq<Byte>, subnet: RoomSubnet, now: nat): (State, bool)
      requires subnet.Valid()
    {
      match Parse(p)
      case None => (this, false)
      case Some(h) =>
        match (ProtoOf(h.protocol), h.ports)
        case (Some(proto), Some((sport, dport))) =>
          if !subnet.IsBroadcast(h.dst) then (Remembered(FlowKey(proto, sport, h.dst, dport), now), true)
          else if AdmitsBroadcast(proto, dport) then
            (Remembered(FlowKey(proto, sport, ANY_MEMBER, dport), now), true)
          else (this, false)
        case (Some(proto), None) => (this, !subnet.IsBroadcast(h.dst) || policy.any || h.fragment == Rest)
        case (None, _) => (this, !subnet.IsBroadcast(h.dst) || policy.any)
    }

    function InboundPorts(proto: LanProto, src: Addr, sport: U16, dport: U16, now: nat): (State, bool) {
      if Admits(proto, dport) then (this, true)
      else
        var (s, ok) := Refreshed(FlowKey(proto, dport, src, sport), now);
        if ok then (s, true) else Refreshed(FlowKey(proto, dport, ANY_MEMBER, sport), now)
    }

    function Vouched(key: FragmentKey, now: nat): State {
      this.(fragments := Fresh(fragments, now, FRAGMENT_WINDOW)[key := now])
    }

    function Inbound(p: seq<Byte>, now: nat): (State, bool) {
      match Parse(p)
      case None => (this, false)
      case Some(h) =>
        var key := FragmentKey(h.src, h.id, h.protocol);
        if h.protocol == PROTO_ICMP then (this, true)
        else if h.fragment == Rest then (this, key in fragments && Since(now, fragments[key]) < FRAGMENT_WINDOW)
        else
          match (ProtoOf(h.protocol), h.ports)
          case (None, _) => (this, policy.any)
          case (Some(proto), None) => (this, false)
          case (Some(proto), Some((sport, dport))) =>
            var (s, ok) := InboundPorts(proto, h.src, sport, dport, now);
            (if ok && h.fragment == First then s.Vouched(key, now) else s, ok)
    }
  }

  // ---------------------------------------------------------------- what a player allows on top

  /** A pack's policy and the extra ports it does not list already. */
  function Merged(base: Policy, extra: seq<LanPort>): Policy {
    if extra == [] then base
    else
      var before, port := Merged(base, extra[..|extra| - 1]), extra[|extra| - 1];
      if port in before.ports then before else before.(ports := before.ports + [port])
  }

  function Distinct(ports: seq<LanPort>): seq<LanPort> {
    if ports == [] then []
    else
      var before, port := Distinct(ports[..|ports| - 1]), ports[|ports| - 1];
      if port in before then before else before + [port]
  }

  /** The first port no click may open. */
  function Refusal(ports: seq<LanPort>): (r: Option<U16>)
    ensures r.None? <==> forall p :: p in ports ==> IsAllowable(p.port)
    ensures r.Some? ==> exists i :: 0 <= i < |ports| && ports[i].port == r.value && !IsAllowable(r.value)
                                    && forall j :: 0 <= j < i ==> IsAllowable(ports[j].port)
  {
    if ports == [] then None
    else if !IsAllowable(ports[0].port) then Some(ports[0].port)
    else Refusal(ports[1..])
  }

  /** What is shared, as one value. */
  datatype Extra = Extra(ports: seq<LanPort>, anyHigh: bool, generation: nat)

  const GENERATIONS := 0x1_0000_0000_0000_0000

  /** What the player lets through, written by the session and read by the pump. */
  class ExtraPorts {
    var ports: seq<LanPort>
    var anyHigh: bool
    var generation: nat

    function Model(): Extra
      reads this
    {
      Extra(ports, anyHigh, generation)
    }

    constructor ()
      ensures ports == [] && !anyHigh && generation == 0
    {
      ports, anyHigh, generation := [], false, 0;
    }

    /** Replace the extra ports; whoever asks, one that is not allowable refuses them all. */
    method Set(wanted: seq<LanPort>) returns (refused: Option<U16>)
      modifies this
      ensures refused == Refusal(wanted) && anyHigh == old(anyHigh)
      ensures refused.Some? ==> ports == old(ports) && generation == old(generation)
      ensures refused.None? ==> ports == Distinct(wanted) && generation == (old(generation) + 1) % GENERATIONS
    {
      refused := Refusal(wanted);
      if refused.Some? {
        return;
      }
      var deduped: seq<LanPort> := [];
      for i := 0 to |wanted|
        invariant deduped == Distinct(wanted[..i])
      {
        assert wanted[..i + 1][..i] == wanted[..i];
        if wanted[i] !in deduped {
          deduped := deduped + [wanted[i]];
        }
      }
      assert wanted[..|wanted|] == wanted;
      ports := deduped;
      generation := (generation + 1) % GENERATIONS;
    }

    /** The last-resort switch. */
    method SetAnyHigh(on: bool)
      modifies this
      ensures anyHigh == on && ports == old(ports) && generation == (old(generation) + 1) % GENERATIONS
    {
      anyHigh := on;
      generation := (generation + 1) % GENERATIONS;
    }
  }

  // ---------------------------------------------------------------- the class

  class LanFilter {
    const base: Policy
    var policy: Policy
    var extraGeneration: nat
    var anyHigh: bool
    var flows: map<FlowKey, nat>
    var fragments: map<FragmentKey, nat>

    function Model(): State
      reads this
    {
      State(policy, anyHigh, flows, fragments)
    }

    constructor (policy: Policy)
      ensures Model() == State(policy, false, map[], map[])
      ensures base == policy && extraGeneration == 0
    {
      base, this.policy, extraGeneration, anyHigh := policy, policy, 0, false;
      flows, fragments := map[], map[];
    }

    predicate Admits(proto: LanProto, port: U16)
      reads this
    {
      policy.Declares(proto, port) || (anyHigh && IsAllowable(port))
    }

    /** Bring the policy up to `extra`, unless this generation of it was merged already. */
    method SyncExtra(extra: ExtraPorts)
      modifies this
      ensures extraGeneration == extra.generation && flows == old(flows) && fragments == old(fragments)
      ensures if old(extraGeneration) == extra.generation then Model() == old(Model())
              else policy == Merged(base, extra.ports) && anyHigh == extra.anyHigh
    {
      var generation := extra.generation;
      if generation == extraGeneration {
        return;
      }
      var merged := base;
      for i := 0 to |extra.ports|
        invariant merged == Merged(base, extra.ports[..i])
      {
        assert extra.ports[..i + 1][..i] == extra.ports[..i];
        if extra.ports[i] !in merged.ports {
          merged := merged.(ports := merged.ports + [extra.ports[i]]);
        }
      }
      assert extra.ports[..|extra.ports|] == extra.ports;
      policy := merged;
      anyHigh := extra.anyHigh;
      extraGeneration := generation;
    }

    /** A use of the flow `key`: refreshed if it has not run out, dropped if it has. */
    method RefreshFlow(key: FlowKey, now: nat) returns (live: bool)
      modifies this`flows
      ensures (Model(), live) == old(Model()).Refreshed(key, now)
    {
      live := key in flows && Since(now, flows[key]) < FLOW_IDLE;
      if live {
        flows := flows[key := now];
      }
    }

    method RememberFlow(key: FlowKey, now: nat)
      modifies this`flows
      ensures Model() == old(Model()).Remembered(key, now)
    {
      if key !in flows && |flows| >= MAX_FLOWS {
        flows := map k | k in flows && Since(now, flows[k]) < FLOW_IDLE :: flows[k];
        assert flows == Fresh(old(flows), now, FLOW_IDLE);
        if |flows| >= MAX_FLOWS {
          return;
        }
      }
      flows := flows[key := now];
    }

    /** Whether this side may send `p` into the room. */
    method Outbound(p: seq<Byte>, subnet: RoomSubnet, now: nat) returns (allowed: bool)
      requires subnet.Valid()
      modifies this`flows
      ensures (Model(), allowed) == old(Model()).Outbound(p, subnet, now)
    {
      var parsed := Parse(p);
      if parsed.None? {
        return false;
      }
      var h := parsed.value;
      var proto := ProtoOf(h.protocol);
      if subnet.IsBroadcast(h.dst) {
        if proto.None? {
          return policy.any;
        }
        if h.ports.None? {
          return policy.any || h.fragment == Rest;
        }
        var (sport, dport) := h.ports.value;
        allowed := if IsOsChatter(dport) then policy.Lists(proto.value, dport) else Admits(proto.value, dport);
        if allowed {
          RememberFlow(FlowKey(proto.value, sport, ANY_MEMBER, dport), now);
        }
        return;
      }
      if proto.Some? && h.ports.Some? {
        var (sport, dport) := h.ports.value;
        RememberFlow(FlowKey(proto.value, sport, h.dst, dport), now);
      }
      allowed := true;
    }

    /** The verdict on `p`, which came from the room. */
    method Inbound(p: seq<Byte>, now: nat) returns (allowed: bool)
      modifies this`flows, this`fragments
      ensures (Model(), allowed) == old(Model()).Inbound(p, now)
    {
      var parsed := Parse(p);
      if parsed.None? {
        return false;
      }
      var h := parsed.value;
      if h.protocol == PROTO_ICMP {
        return true;
      }
      var key := FragmentKey(h.src, h.id, h.protocol);
      if h.fragment == Rest {
        return key in fragments && Since(now, fragments[key]) < FRAGMENT_WINDOW;
      }
      var proto := ProtoOf(h.protocol);
      if proto.None? {
        return policy.any;
      }
      if h.ports.None? {
        return false;
      }
      var (sport, dport) := h.ports.value;
      allowed := Admits(proto.value, dport);
      if !allowed {
        allowed := RefreshFlow(FlowKey(proto.value, dport, h.src, sport), now);
      }
      if !allowed {
        allowed := RefreshFlow(FlowKey(proto.value, dport, ANY_MEMBER, sport), now);
      }
      if allowed && h.fragment == First {
        var kept := map k | k in fragments && Since(now, fragments[k]) < FRAGMENT_WINDOW :: fragments[k];
        assert kept == Fresh(fragments, now, FRAGMENT_WINDOW);
        fragments := kept[key := now];
      }
    }
  }
}
