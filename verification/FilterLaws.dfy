/**
 What the filter guarantees over whole runs: a packet to an undeclared port gets in only as a
 reply, linked packet by packet to something this side sent; a later fragment only after its
 first; and the flow table stays bounded.
 */
module FilterLaws {
  import opened Wire
  import opened Ipv4
  import opened Subnet
  import opened Filter

  /** One call of the filter, or a change of what the player allowed. */
  datatype Event =
    | Out(p: seq<Byte>, subnet: RoomSubnet, now: nat)
    | In(p: seq<Byte>, now: nat)
    | Allow(policy: Policy, anyHigh: bool, now: nat)
  {
    predicate Ok() { Out? ==> subnet.Valid() }
  }

  function Step(s: State, e: Event): (State, bool)
    requires e.Ok()
  {
    match e
    case Out(p, subnet, now) => s.Outbound(p, subnet, now)
    case In(p, now) => s.Inbound(p, now)
    case Allow(policy, anyHigh, now) => (s.(policy := policy, anyHigh := anyHigh), true)
  }

  predicate AllOk(es: seq<Event>) { forall i :: 0 <= i < |es| ==> es[i].Ok() }

  predicate InOrder(es: seq<Event>) { forall i, j :: 0 <= i <= j < |es| ==> es[i].now <= es[j].now }

  function Run(s: State, es: seq<Event>): State
    requires AllOk(es)
  {
    if es == [] then s else Step(Run(s, es[..|es| - 1]), es[|es| - 1]).0
  }

  /** Whether the filter let the `k`-th packet of a run through. */
  predicate Accepted(s: State, es: seq<Event>, k: nat)
    requires AllOk(es) && k < |es|
  {
    Step(Run(s, es[..k]), es[k]).1
  }

  // ---------------------------------------------------------------- what vouches for a flow

  /** The flow an outbound packet opens: its own ports, and the peer it names or, for a broadcast, anyone. */
  function Opens(s: State, e: Event): Option<FlowKey>
    requires e.Ok()
  {
    if !e.Out? then None
    else
      match Parse(e.p)
      case None => None
      case Some(h) =>
        match (ProtoOf(h.protocol), h.ports)
        case (Some(proto), Some((sport, dport))) =>
          if !e.subnet.IsBroadcast(h.dst) then Some(FlowKey(proto, sport, h.dst, dport))
          else if s.AdmitsBroadcast(proto, dport) then Some(FlowKey(proto, sport, ANY_MEMBER, dport))
          else None
        case _ => None
  }

  /** The flow an inbound packet would be a reply on, from one peer. */
  function ReplyKey(p: seq<Byte>): Option<FlowKey> {
    match Parse(p)
    case None => None
    case Some(h) =>
      match (ProtoOf(h.protocol), h.ports)
      case (Some(proto), Some((sport, dport))) => Some(FlowKey(proto, dport, h.src, sport))
      case _ => None
  }

  predicate Mirrors(p: seq<Byte>, key: FlowKey) {
    ReplyKey(p).Some? && (key == ReplyKey(p).value || key == ReplyKey(p).value.(far := ANY_MEMBER))
  }

  /**
   Packet by packet, `key` was last used at `t`: by a packet this side sent that opened it, or by
   a mirrored packet let in less than FLOW_IDLE after an earlier such use.
   */
  ghost predicate Linked(s: State, es: seq<Event>, key: FlowKey, t: nat)
    requires AllOk(es)
    decreases |es|
  {
    exists k: nat :: k < |es| && es[k].now == t && LinkAt(s, es, key, k)
  }

  ghost predicate LinkAt(s: State, es: seq<Event>, key: FlowKey, k: nat)
    requires AllOk(es) && k < |es|
    decreases |es|, 0
  {
    || Opens(Run(s, es[..k]), es[k]) == Some(key)
    || (es[k].In? && Mirrors(es[k].p, key) && Accepted(s, es, k)
        && exists u: nat :: u <= es[k].now < u + FLOW_IDLE && Linked(s, es[..k], key, u))
  }

  /** A first fragment of `key` was let in at `t`. */
  ghost predicate FirstSeen(s: State, es: seq<Event>, key: FragmentKey, t: nat)
    requires AllOk(es)
  {
    exists k: nat :: k < |es| && es[k].now == t && FirstAt(s, es, key, k)
  }

  predicate FirstAt(s: State, es: seq<Event>, key: FragmentKey, k: nat)
    requires AllOk(es) && k < |es|
  {
    && es[k].In? && Accepted(s, es, k) && Parse(es[k].p).Some?
    && var h := Parse(es[k].p).value; h.fragment == First && FragmentKey(h.src, h.id, h.protocol) == key
  }

  lemma {:induction false} LinkGrows(s: State, es: seq<Event>, key: FlowKey, t: nat)
    requires |es| > 0 && AllOk(es) && Linked(s, es[..|es| - 1], key, t)
    ensures Linked(s, es, key, t)
  {
    hide Run, Step, Opens, Mirrors;
    var init := es[..|es| - 1];
    var k: nat :| k < |init| && init[k].now == t && LinkAt(s, init, key, k);
    assert init[..k] == es[..k];
    assert LinkAt(s, es, key, k);
  }

  lemma FirstGrows(s: State, es: seq<Event>, key: FragmentKey, t: nat)
    requires |es| > 0 && AllOk(es) && FirstSeen(s, es[..|es| - 1], key, t)
    ensures FirstSeen(s, es, key, t)
  {
    hide Run, Step, Parse;
    var init := es[..|es| - 1];
    var k: nat :| k < |init| && init[k].now == t && FirstAt(s, init, key, k);
    assert init[..k] == es[..k];
    assert FirstAt(s, es, key, k);
  }

  // ---------------------------------------------------------------- one step

  lemma RememberedFlows(s: State, flow: FlowKey, now: nat, key: FlowKey)
    requires key in s.Remembered(flow, now).flows
    ensures var after := s.Remembered(flow, now);
      (key in s.flows && after.flows[key] == s.flows[key]) || (key == flow && after.flows[key] == now)
  {
  }

  lemma InboundFlows(s: State, p: seq<Byte>, now: nat, key: FlowKey)
    requires key in s.Inbound(p, now).0.flows
    ensures var (after, ok) := s.Inbound(p, now);
      && key in s.flows
      && (after.flows[key] == s.flows[key]
          || (after.flows[key] == now && Mirrors(p, key) && ok && s.Live(key, now)))
  {
    match Parse(p)
    case None =>
    case Some(h) =>
      if h.protocol != PROTO_ICMP && h.fragment != Rest && ProtoOf(h.protocol).Some? && h.ports.Some? {
        var (sport, dport) := h.ports.value;
        InboundPortsFlows(s, ProtoOf(h.protocol).value, h.src, sport, dport, now, key);
      }
  }

  lemma InboundPortsFlows(s: State, proto: LanProto, src: Addr, sport: U16, dport: U16, now: nat, key: FlowKey)
    ensures var (after, ok) := s.InboundPorts(proto, src, sport, dport, now);
      && (key in after.flows <==> key in s.flows)
      && (key in s.flows ==>
            || after.flows[key] == s.flows[key]
            || (after.flows[key] == now && ok && s.Live(key, now)
                && key in {FlowKey(proto, dport, src, sport), FlowKey(proto, dport, ANY_MEMBER, sport)}))
  {
  }

  /** A step touches at most one flow, at its own time: one it opens, or a live one it mirrors. */
  lemma StepFlows(s: State, e: Event, key: FlowKey)
    requires e.Ok() && key in Step(s, e).0.flows
    ensures var after := Step(s, e).0;
      || (key in s.flows && after.flows[key] == s.flows[key])
      || (after.flows[key] == e.now && Opens(s, e) == Some(key))
      || (after.flows[key] == e.now && e.In? && Mirrors(e.p, key) && Step(s, e).1 && s.Live(key, e.now))
  {
    match e
    case Out(p, subnet, now) =>
      OutboundIs(s, e);
      if Opens(s, e).Some? {
        RememberedFlows(s, Opens(s, e).value, now, key);
      }
    case In(p, now) => InboundFlows(s, p, now, key);
    case Allow(_, _, _) =>
  }

  /** An outbound packet does to the tables exactly what the flow it opens asks for. */
  lemma OutboundIs(s: State, e: Event)
    requires e.Ok() && e.Out?
    ensures Step(s, e).0 == if Opens(s, e).Some? then s.Remembered(Opens(s, e).value, e.now) else s
    ensures Opens(s, e).Some? ==> Step(s, e).1
  {
  }

  lemma StepFragments(s: State, e: Event, key: FragmentKey)
    requires e.Ok() && key in Step(s, e).0.fragments
    ensures var after := Step(s, e).0;
      || (key in s.fragments && after.fragments[key] == s.fragments[key])
      || (after.fragments[key] == e.now && e.In? && Step(s, e).1 && Parse(e.p).Some?
          && var h := Parse(e.p).value; h.fragment == First && FragmentKey(h.src, h.id, h.protocol) == key)
  {
    hide Parse, State.Remembered, RoomSubnet.IsBroadcast, RoomSubnet.Valid, State.AdmitsBroadcast;
    if e.Out? {
      OutboundIs(s, e);
      if Opens(s, e).Some? {
        RememberedPieces(s, Opens(s, e).value, e.now);
      }
    }
  }

  lemma RememberedPieces(s: State, flow: FlowKey, now: nat)
    ensures s.Remembered(flow, now).fragments == s.fragments
  {
  }

  lemma RememberedBound(s: State, key: FlowKey, now: nat)
    requires |s.flows| <= MAX_FLOWS
    ensures |s.Remembered(key, now).flows| <= MAX_FLOWS
  {
    if key in s.flows {
      assert s.flows[key := now].Keys == s.flows.Keys;
      KeyCount(s.flows[key := now], s.flows);
    } else {
      var kept := Fresh(s.flows, now, FLOW_IDLE);
      SubsetSize(kept.Keys, s.flows.Keys);
    }
  }

  lemma KeyCount<K, V>(m: map<K, V>, n: map<K, V>)
    requires m.Keys == n.Keys
    ensures |m| == |n|
  {
    assert |m.Keys| == |m| && |n.Keys| == |n|;
  }

  lemma StepBound(s: State, e: Event)
    requires e.Ok() && |s.flows| <= MAX_FLOWS
    ensures |Step(s, e).0.flows| <= MAX_FLOWS
  {
    match e
    case Out(p, subnet, now) =>
      OutboundIs(s, e);
      if Opens(s, e).Some? {
        RememberedBound(s, Opens(s, e).value, now);
      }
    case In(p, now) => InboundKeys(s, p, now);
    case Allow(_, _, _) =>
  }

  lemma InboundKeys(s: State, p: seq<Byte>, now: nat)
    ensures s.Inbound(p, now).0.flows.Keys == s.flows.Keys
    ensures |s.Inbound(p, now).0.flows| == |s.flows|
  {
    var after := s.Inbound(p, now).0;
    forall key ensures key in after.flows <==> key in s.flows {
      InboundKey(s, p, now, key);
    }
    assert after.flows.Keys == s.flows.Keys;
    KeyCount(after.flows, s.flows);
  }

  lemma InboundKey(s: State, p: seq<Byte>, now: nat, key: FlowKey)
    ensures key in s.Inbound(p, now).0.flows <==> key in s.flows
  {
    match Parse(p)
    case None =>
    case Some(h) =>
      if h.protocol != PROTO_ICMP && h.fragment != Rest && ProtoOf(h.protocol).Some? && h.ports.Some? {
        var (sport, dport) := h.ports.value;
        InboundPortsFlows(s, ProtoOf(h.protocol).value, h.src, sport, dport, now, key);
      }
  }

  // ---------------------------------------------------------------- over a run

  /** Everything the tables hold is vouched for by the packets of the run. */
  ghost predicate Explained(s: State, es: seq<Event>)
    requires AllOk(es)
  {
    var now := Run(s, es);
    && |now.flows| <= MAX_FLOWS
    && (forall key :: key in now.flows ==> Linked(s, es, key, now.flows[key]))
    && (forall key :: key in now.fragments ==> FirstSeen(s, es, key, now.fragments[key]))
    && (forall key :: key in now.flows ==> es != [] && now.flows[key] <= es[|es| - 1].now)
    && (forall key :: key in now.fragments ==> es != [] && now.fragments[key] <= es[|es| - 1].now)
  }

  lemma {:induction false} RunExplained(s: State, es: seq<Event>)
    requires AllOk(es) && InOrder(es) && s.flows == map[] && s.fragments == map[]
    ensures Explained(s, es)
  {
    if es != [] {
      var k := |es| - 1;
      var init := es[..k];
      RunExplained(s, init);
      var before, e := Run(s, init), es[k];
      assert Run(s, es) == Step(before, e).0;
      StepBound(before, e);
      assert init != [] ==> init[|init| - 1].now <= e.now;
      forall key | key in Run(s, es).flows
        ensures Linked(s, es, key, Run(s, es).flows[key]) && Run(s, es).flows[key] <= e.now
      {
        FlowExplained(s, es, key);
      }
      forall key | key in Run(s, es).fragments
        ensures FirstSeen(s, es, key, Run(s, es).fragments[key]) && Run(s, es).fragments[key] <= e.now
      {
        StepFragments(before, e, key);
        if key in before.fragments && Run(s, es).fragments[key] == before.fragments[key] {
          FirstGrows(s, es, key, before.fragments[key]);
        } else {
          assert FirstAt(s, es, key, k);
        }
      }
    }
  }

  lemma {:induction false} FlowExplained(s: State, es: seq<Event>, key: FlowKey)
    requires |es| > 0 && AllOk(es) && InOrder(es) && Explained(s, es[..|es| - 1]) && key in Run(s, es).flows
    ensures Linked(s, es, key, Run(s, es).flows[key]) && Run(s, es).flows[key] <= es[|es| - 1].now
  {
    var k := |es| - 1;
    var init := es[..k];
    var before, e := Run(s, init), es[k];
    StepFlows(before, e, key);
    assert init != [] ==> init[|init| - 1].now <= e.now;
    if key in before.flows {
      LinkGrows(s, es, key, before.flows[key]);
    }
    if Run(s, es).flows[key] == e.now {
      if Opens(before, e) == Some(key) {
        assert LinkAt(s, es, key, k);
      } else if key in before.flows && Run(s, es).flows[key] == before.flows[key] {
      } else {
        assert before.flows[key] <= e.now < before.flows[key] + FLOW_IDLE;
        assert LinkAt(s, es, key, k);
      }
    }
  }

  /** The table of a filter that ran from empty never holds more than MAX_FLOWS flows. */
  lemma {:induction false} FlowsBounded(policy: Policy, es: seq<Event>)
    requires AllOk(es) && InOrder(es)
    ensures |Run(State(policy, false, map[], map[]), es).flows| <= MAX_FLOWS
  {
    RunExplained(State(policy, false, map[], map[]), es);
  }

  /**
   Soundness.  A UDP or TCP packet to a port not open when it arrives is let in only on a flow
   mirroring its ports, linked to this side's own packets by uses less than FLOW_IDLE apart, the
   last of them less than FLOW_IDLE ago.  A flow to anyone was opened by a broadcast to a port
   the policy then let out, or by a packet to 0.0.0.0 (FlowOpened).
   */
  lemma {:induction false} AdmittedIsReply(policy: Policy, es: seq<Event>, k: nat)
    requires AllOk(es) && InOrder(es) && k < |es| && es[k].In?
    requires var s := State(policy, false, map[], map[]); Accepted(s, es, k)
    requires ReplyKey(es[k].p).Some?
    requires var s := Run(State(policy, false, map[], map[]), es[..k]);
      !s.Admits(ReplyKey(es[k].p).value.proto, ReplyKey(es[k].p).value.own)
    ensures exists key, u: nat ::
      && Mirrors(es[k].p, key) && u <= es[k].now < u + FLOW_IDLE
      && Linked(State(policy, false, map[], map[]), es[..k], key, u)
  {
    var s0 := State(policy, false, map[], map[]);
    var before, s := es[..k], Run(s0, es[..k]);
    RunExplained(s0, before);
    var key := ReplyKey(es[k].p).value;
    assert before != [] ==> before[|before| - 1].now <= es[k].now;
    if s.Live(key, es[k].now) {
      assert Linked(s0, before, key, s.flows[key]);
    } else {
      var any := key.(far := ANY_MEMBER);
      assert s.Live(any, es[k].now);
      assert Linked(s0, before, any, s.flows[any]);
    }
  }

  /** Following the links back ends at a packet this side sent and the filter let out, mirroring the flow. */
  lemma {:induction false} FlowOpened(s: State, es: seq<Event>, key: FlowKey, t: nat)
    requires AllOk(es) && InOrder(es) && Linked(s, es, key, t)
    ensures exists k: nat :: k < |es| && es[k].now <= t && OpenedAt(s, es, key, k)
    decreases |es|
  {
    hide Opens, Run, Mirrors, Step, LinkAt, OpenedAt;
    var k: nat :| k < |es| && es[k].now == t && LinkAt(s, es, key, k);
    if Opens(Run(s, es[..k]), es[k]) == Some(key) {
      OpenerIsOpened(s, es, key, k);
    } else {
      var u := LinkBefore(s, es, key, k);
      FlowOpened(s, es[..k], key, u);
      var j: nat :| j < k && es[..k][j].now <= u && OpenedAt(s, es[..k], key, j);
      OpenedGrows(s, es, key, k, j);
    }
  }

  lemma OpenerLeaves(s: State, e: Event)
    requires e.Ok() && Opens(s, e).Some?
    ensures e.Out? && Step(s, e).1
  {
    OutboundIs(s, e);
  }

  lemma {:induction false} OpenerIsOpened(s: State, es: seq<Event>, key: FlowKey, k: nat)
    requires AllOk(es) && k < |es| && Opens(Run(s, es[..k]), es[k]) == Some(key)
    ensures OpenedAt(s, es, key, k)
  {
    hide Run, Opens;
    OpenerLeaves(Run(s, es[..k]), es[k]);
  }

  lemma LinkBefore(s: State, es: seq<Event>, key: FlowKey, k: nat) returns (u: nat)
    requires AllOk(es) && k < |es| && LinkAt(s, es, key, k) && Opens(Run(s, es[..k]), es[k]) != Some(key)
    ensures u <= es[k].now < u + FLOW_IDLE && Linked(s, es[..k], key, u)
  {
    u :| u <= es[k].now < u + FLOW_IDLE && Linked(s, es[..k], key, u);
  }

  lemma OpenedGrows(s: State, es: seq<Event>, key: FlowKey, k: nat, j: nat)
    requires AllOk(es) && j < k <= |es| && OpenedAt(s, es[..k], key, j)
    ensures OpenedAt(s, es, key, j)
  {
    assert es[..k][..j] == es[..j];
  }

  /** The `k`-th packet is one this side sent, let out, opening `key`. */
  predicate OpenedAt(s: State, es: seq<Event>, key: FlowKey, k: nat)
    requires AllOk(es) && k < |es|
  {
    es[k].Out? && Accepted(s, es, k) && Opens(Run(s, es[..k]), es[k]) == Some(key)
  }

  /** What opens a flow: a packet to its far end from its own port, or, for a flow to anyone, a broadcast let out. */
  predicate Asks(s: State, e: Event, key: FlowKey)
    requires e.Ok()
  {
    && e.Out? && Parse(e.p).Some?
    && var h := Parse(e.p).value;
       && ProtoOf(h.protocol) == Some(key.proto) && h.ports == Some((key.own, key.farPort))
       && if e.subnet.IsBroadcast(h.dst) then key.far == ANY_MEMBER && s.AdmitsBroadcast(key.proto, key.farPort)
          else h.dst == key.far
  }

  lemma OpensAsks(s: State, e: Event, key: FlowKey)
    requires e.Ok()
    ensures Opens(s, e) == Some(key) <==> Asks(s, e, key)
  {
  }

  /** The `k`-th packet is one this side sent and the filter let out, asking for `key`. */
  predicate AskedAt(s: State, es: seq<Event>, key: FlowKey, k: nat)
    requires AllOk(es) && k < |es|
  {
    Accepted(s, es, k) && Asks(Run(s, es[..k]), es[k], key)
  }

  /**
   So a packet to a port not open is let in only if this side asked: it had sent a packet with
   exactly mirrored ports, to that peer, to 0.0.0.0, or to a broadcast on a port the policy let out.
   */
  lemma {:induction false} AdmittedWasAskedFor(policy: Policy, es: seq<Event>, k: nat)
    requires AllOk(es) && InOrder(es) && k < |es| && es[k].In?
    requires Accepted(State(policy, false, map[], map[]), es, k) && ReplyKey(es[k].p).Some?
    requires var s := Run(State(policy, false, map[], map[]), es[..k]);
      !s.Admits(ReplyKey(es[k].p).value.proto, ReplyKey(es[k].p).value.own)
    ensures exists key, j: nat ::
      Mirrors(es[k].p, key) && j < k && AskedAt(State(policy, false, map[], map[]), es[..k], key, j)
  {
    hide Linked, Mirrors, Asks;
    var s0 := State(policy, false, map[], map[]);
    AdmittedIsReply(policy, es, k);
    var key, u: nat :| Mirrors(es[k].p, key) && u <= es[k].now < u + FLOW_IDLE && Linked(s0, es[..k], key, u);
    FlowOpened(s0, es[..k], key, u);
    var j: nat :| j < k && es[..k][j].now <= u && OpenedAt(s0, es[..k], key, j);
    OpensAsks(Run(s0, es[..k][..j]), es[..k][j], key);
    assert AskedAt(s0, es[..k], key, j);
  }

  /** A later fragment is let in only within FRAGMENT_WINDOW of its datagram's first, itself let in. */
  lemma RestFollowsFirst(policy: Policy, es: seq<Event>, k: nat)
    requires AllOk(es) && InOrder(es) && k < |es| && es[k].In?
    requires Accepted(State(policy, false, map[], map[]), es, k)
    requires Parse(es[k].p).Some? && Parse(es[k].p).value.fragment == Rest
    requires Parse(es[k].p).value.protocol != PROTO_ICMP
    ensures var h := Parse(es[k].p).value;
      var key := FragmentKey(h.src, h.id, h.protocol);
      exists u: nat :: u <= es[k].now < u + FRAGMENT_WINDOW
        && FirstSeen(State(policy, false, map[], map[]), es[..k], key, u)
  {
    var s0 := State(policy, false, map[], map[]);
    var s, h := Run(s0, es[..k]), Parse(es[k].p).value;
    RunExplained(s0, es[..k]);
    var key := FragmentKey(h.src, h.id, h.protocol);
    assert s.fragments[key] <= es[..k][k - 1].now <= es[k].now;
    assert FirstSeen(s0, es[..k], key, s.fragments[key]);
  }

  // ---------------------------------------------------------------- completeness

  /** A remembered flow stays, and stays at least as fresh, while nothing is FLOW_IDLE old. */
  lemma FlowPersists(s: State, e: Event, key: FlowKey, t: nat)
    requires e.Ok() && key in s.flows && t <= s.flows[key] && t <= e.now < t + FLOW_IDLE
    ensures key in Step(s, e).0.flows && t <= Step(s, e).0.flows[key]
  {
    match e
    case Out(p, subnet, now) =>
      OutboundIs(s, e);
    case In(p, now) =>
      InboundKeys(s, p, now);
      InboundFlows(s, p, now, key);
    case Allow(_, _, _) =>
  }

  /** A packet opening a flow is remembered exactly when the flow fits. */
  lemma OpenedIsRemembered(s: State, e: Event, key: FlowKey)
    requires e.Ok() && Opens(s, e) == Some(key)
    ensures Step(s, e).1
    ensures s.Fits(key, e.now) <==> key in Step(s, e).0.flows && Step(s, e).0.flows[key] == e.now
  {
  }

  /** What uses a flow: a packet that opens it again, or one on it to a port not open. */
  predicate Uses(s: State, e: Event, key: FlowKey)
    requires e.Ok()
  {
    || Opens(s, e) == Some(key)
    || (e.In? && ReplyKey(e.p).Some?
        && var reply := ReplyKey(e.p).value;
           && !s.Admits(reply.proto, reply.own)
           && key == if s.Live(reply, e.now) then reply else reply.(far := ANY_MEMBER))
  }

  /** When `key`, used at `t`, was used last. */
  function LastUse(s: State, es: seq<Event>, key: FlowKey, t: nat): nat
    requires AllOk(es)
  {
    if es == [] then t
    else
      var init, e := es[..|es| - 1], es[|es| - 1];
      if Uses(Run(s, init), e, key) then e.now else LastUse(s, init, key, t)
  }

  /** In a run, `key` is never left unused for FLOW_IDLE. */
  predicate KeptUp(s: State, es: seq<Event>, key: FlowKey, t: nat)
    requires AllOk(es)
  {
    es != [] ==>
      var init, u := es[..|es| - 1], LastUse(s, es[..|es| - 1], key, t);
      KeptUp(s, init, key, t) && u <= es[|es| - 1].now < u + FLOW_IDLE
  }

  /** A run within one FLOW_IDLE, in order, keeps it up, used or not. */
  lemma {:induction false} WindowKeepsUp(s: State, es: seq<Event>, key: FlowKey, t: nat)
    requires AllOk(es) && InOrder(es) && forall i :: 0 <= i < |es| ==> t <= es[i].now < t + FLOW_IDLE
    ensures KeptUp(s, es, key, t)
    ensures t <= LastUse(s, es, key, t) <= if es == [] then t else es[|es| - 1].now
  {
    hide Uses, Step, Run;
    if es != [] {
      WindowKeepsUp(s, es[..|es| - 1], key, t);
    }
  }

  lemma UseRefreshes(s: State, e: Event, key: FlowKey)
    requires e.Ok() && Uses(s, e, key) && s.Live(key, e.now)
    ensures key in Step(s, e).0.flows && Step(s, e).0.flows[key] == e.now
  {
    if Opens(s, e) == Some(key) {
      OutboundIs(s, e);
    }
  }

  lemma {:induction false} FlowLivesOn(s: State, es: seq<Event>, key: FlowKey, t: nat)
    requires AllOk(es) && key in s.flows && t <= s.flows[key] && KeptUp(s, es, key, t)
    ensures key in Run(s, es).flows && LastUse(s, es, key, t) <= Run(s, es).flows[key]
  {
    hide Uses, Step;
    if es != [] {
      var init, e := es[..|es| - 1], es[|es| - 1];
      FlowLivesOn(s, init, key, t);
      FlowPersists(Run(s, init), e, key, LastUse(s, init, key, t));
      if Uses(Run(s, init), e, key) {
        UseRefreshes(Run(s, init), e, key);
      }
    }
  }

  /**
   Completeness.  After a packet opened a flow that fit, and as long as the flow is used either way
   at least once in any FLOW_IDLE, every mirrored packet is let in.
   */
  lemma {:induction false} ReplyAdmitted(s: State, e: Event, es: seq<Event>, key: FlowKey, p: seq<Byte>, now: nat)
    requires e.Ok() && AllOk(es) && Opens(s, e) == Some(key) && s.Fits(key, e.now)
    requires KeptUp(Step(s, e).0, es, key, e.now)
    requires var u := LastUse(Step(s, e).0, es, key, e.now); u <= now < u + FLOW_IDLE
    requires Mirrors(p, key)
    ensures Run(Step(s, e).0, es).Inbound(p, now).1
  {
    OpenedIsRemembered(s, e, key);
    FlowLivesOn(Step(s, e).0, es, key, e.now);
    LiveIsAdmitted(Run(Step(s, e).0, es), p, key, now);
  }

  lemma LiveIsAdmitted(s: State, p: seq<Byte>, key: FlowKey, now: nat)
    requires Mirrors(p, key) && s.Live(key, now)
    ensures s.Inbound(p, now).1
  {
  }
}
