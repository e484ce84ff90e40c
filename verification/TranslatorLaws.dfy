/**
 What the translator guarantees over whole runs (`lan_rebind.rs`): an address that takes the room
 address's place is one the survey gives the port to, or one of this machine's that itself sent a
 packet with mirrored ports, linked to the answer packet by packet.
 */
module TranslatorLaws {
  import opened Wire
  import opened Ipv4
  import opened Subnet
  import opened Pump
  import opened PumpLaws
  import Filter
  import Rebinder
  import RoomCheck

  // ---------------------------------------------------------------- what the tables are asked

  /** The port of this side a packet is about, and the far end's: its own, or those of what it quotes. */
  datatype Question = Question(proto: LanProto, port: U16, peer: Addr, peerPort: U16) {
    function Entries(): set<Entry> {
      {OfFlow(Filter.FlowKey(proto, port, peer, peerPort)), OfSearch(Rebinder.SearchKey(proto, port, peerPort))}
    }
  }

  /** An entry of either table. */
  datatype Entry = OfFlow(flow: Rebinder.FlowKey) | OfSearch(search: Rebinder.SearchKey)

  function Asked(p: seq<Byte>): Option<Question> {
    match Endpoints(p)
    case None => None
    case Some((src, _)) =>
      if FragmentOffset(p) != 0 then None
      else if p[9] == PROTO_ICMP then
        match QuotedTransport(p)
        case None => None
        case Some(q) => Some(Question(q.ports.proto, q.ports.sport, q.dst, q.ports.dport))
      else
        match Transport(p)
        case None => None
        case Some(ports) => Some(Question(ports.proto, ports.dport, src, ports.sport))
  }

  function EntryOf(s: Rebinder.State, k: Entry): Option<Rebinder.Flow> {
    match k
    case OfFlow(flow) => if flow in s.flows then Some(s.flows[flow]) else None
    case OfSearch(search) => if search in s.searches then Some(s.searches[search]) else None
  }

  // ---------------------------------------------------------------- what vouches for an entry

  /** A packet `to` sent, that the translator notes under `k`: by its peer, or by the port it searched. */
  predicate OpensFor(s: State, e: Event, own: Addr, subnet: RoomSubnet, k: Entry, to: Addr)
    requires subnet.Valid()
  {
    && e.Sent?
    && match OpeningOf(s.rebinder, e.p, own, subnet)
       case None => false
       case Some(o) =>
         o.src == to && k == if subnet.IsBroadcast(o.dst) then OfSearch(SearchOf(o)) else OfFlow(FlowOf(o))
  }

  /** A packet for this member, let in and handed over, that asks for `k`. */
  predicate AsksFor(s: State, e: Event, own: Addr, subnet: RoomSubnet, k: Entry)
    requires subnet.Valid()
  {
    && e.Received? && s.Down(e.p, Some(own), subnet, e.now).1.Handed?
    && Asked(e.p).Some? && k in Asked(e.p).value.Entries()
  }

  /**
   Packet by packet, `k` was last used for `to` at `t`: by a packet `to` sent, or by one handed over
   less than FLOW_IDLE after an earlier such use.
   */
  ghost predicate Linked(s: State, es: seq<Event>, own: Addr, subnet: RoomSubnet, k: Entry, to: Addr, t: nat)
    requires subnet.Valid()
    decreases |es|
  {
    exists j: nat :: j < |es| && es[j].now == t && LinkAt(s, es, own, subnet, k, to, j)
  }

  ghost predicate LinkAt(s: State, es: seq<Event>, own: Addr, subnet: RoomSubnet, k: Entry, to: Addr, j: nat)
    requires subnet.Valid() && j < |es|
    decreases |es|, 0
  {
    var before := PumpLaws.Run(s, es[..j], own, subnet);
    || OpensFor(before, es[j], own, subnet, k, to)
    || (AsksFor(before, es[j], own, subnet, k)
        && exists u: nat :: u <= es[j].now < u + Rebinder.FLOW_IDLE && Linked(s, es[..j], own, subnet, k, to, u))
  }

  /** After `es`, a packet is about `to`: the survey says so, or a live entry that is linked. */
  ghost predicate Sourced(s: State, es: seq<Event>, own: Addr, subnet: RoomSubnet, p: seq<Byte>, now: nat, to: Addr)
    requires subnet.Valid()
  {
    && Asked(p).Some?
    && var q := Asked(p).value;
       || Surveyed(PumpLaws.Run(s, es, own, subnet), q, to)
       || exists k, u: nat :: k in q.Entries() && u <= now < u + Rebinder.FLOW_IDLE
                              && Linked(s, es, own, subnet, k, to, u)
  }

  predicate Surveyed(s: State, q: Question, to: Addr) {
    var found := Rebinder.ReboundTo(s.rebinder.survey.rebound, q.proto, q.port);
    found.Some? && found.value.to == to
  }

  /** The first piece of a datagram, about `to`, arrived at `t`. */
  ghost predicate FirstCame(s: State, es: seq<Event>, own: Addr, subnet: RoomSubnet, key: Filter.FragmentKey,
                            to: Addr, t: nat)
    requires subnet.Valid()
  {
    exists j: nat :: j < |es| && es[j].now == t && FirstAt(s, es, own, subnet, key, to, j)
  }

  ghost predicate FirstAt(s: State, es: seq<Event>, own: Addr, subnet: RoomSubnet, key: Filter.FragmentKey,
                          to: Addr, j: nat)
    requires subnet.Valid() && j < |es|
  {
    && es[j].Received? && IsFirstOf(es[j].p, key)
    && Sourced(s, es[..j], own, subnet, es[j].p, es[j].now, to)
  }

  predicate IsFirstOf(p: seq<Byte>, key: Filter.FragmentKey) {
    && Endpoints(p).Some? && FragmentOffset(p) == 0 && MoreFragments(p)
    && key == Filter.FragmentKey(Endpoints(p).value.0, Word(p, 4), p[9])
  }

  // ---------------------------------------------------------------- one step

  lemma RememberedEntry<K(!new)>(m: map<K, Rebinder.Flow>, key: K, flow: Rebinder.Flow, now: nat, k: K)
    requires k in Rebinder.Remember(m, key, flow, now)
    ensures var f := Rebinder.Remember(m, key, flow, now)[k]; (k in m && f == m[k]) || (k == key && f == flow)
  {
  }

  lemma OpenedEntry(s: Rebinder.State, o: Opening, subnet: RoomSubnet, now: nat, probe: bool, k: Entry)
    requires subnet.Valid() && EntryOf(s.Opened(o.ports, o.src, o.dst, subnet, now, probe), k).Some?
    ensures var f := EntryOf(s.Opened(o.ports, o.src, o.dst, subnet, now, probe), k).value;
      || EntryOf(s, k) == Some(f)
      || (f.to == o.src && f.seen == now
          && k == if subnet.IsBroadcast(o.dst) then OfSearch(SearchOf(o)) else OfFlow(FlowOf(o)))
  {
    hide RoomSubnet.IsBroadcast, Rebinder.Remember;
    if subnet.IsBroadcast(o.dst) {
      var key := SearchOf(o);
      var known := if key in s.searches then Some(s.searches[key]) else None;
      var flow := Rebinder.Flow(o.src, s.Pinned(known, o.ports.proto, o.src, probe), now);
      if k.OfSearch? {
        RememberedEntry(s.searches, key, flow, now, k.search);
      }
    } else {
      var key := FlowOf(o);
      var known := if key in s.flows then Some(s.flows[key]) else None;
      var flow := Rebinder.Flow(o.src, s.Pinned(known, o.ports.proto, o.src, probe), now);
      if k.OfFlow? {
        RememberedEntry(s.flows, key, flow, now, k.flow);
      }
    }
  }

  /** Refreshed, while live; and the target is that entry's, or the survey's. */
  lemma TargetEntry(s: Rebinder.State, q: Question, now: nat, k: Entry)
    ensures var (after, target) := s.TargetOf(q.proto, q.port, q.peer, q.peerPort, now);
      && after.survey == s.survey && after.fragments == s.fragments
      && (EntryOf(after, k).Some? <==> EntryOf(s, k).Some?)
      && (EntryOf(s, k).Some? ==>
            var was, f := EntryOf(s, k).value, EntryOf(after, k).value;
            && f.to == was.to
            && (f.seen == was.seen
                || (f.seen == now && k in q.Entries() && Filter.Since(now, was.seen) < Rebinder.FLOW_IDLE)))
  {
  }

  lemma TargetIs(s: Rebinder.State, q: Question, now: nat)
    requires s.TargetOf(q.proto, q.port, q.peer, q.peerPort, now).1.Some?
    ensures var target := s.TargetOf(q.proto, q.port, q.peer, q.peerPort, now).1;
      || target == Rebinder.ReboundTo(s.survey.rebound, q.proto, q.port)
      || exists k :: k in q.Entries() && EntryOf(s, k).Some? && EntryOf(s, k).value.to == target.value.to
                     && Filter.Since(now, EntryOf(s, k).value.seen) < Rebinder.FLOW_IDLE
  {
    var flow, search := OfFlow(Filter.FlowKey(q.proto, q.port, q.peer, q.peerPort)),
                        OfSearch(Rebinder.SearchKey(q.proto, q.port, q.peerPort));
    assert flow in q.Entries() && search in q.Entries();
    if Rebinder.LiveIn(s.flows, flow.flow, now) {
      assert EntryOf(s, flow) == Some(s.flows[flow.flow]);
    } else if Rebinder.LiveIn(s.searches, search.search, now) {
      assert EntryOf(s, search) == Some(s.searches[search.search]);
    }
  }

  /** A packet without a question changes no entry, and only a later piece has a target then. */
  lemma LookupIs(s: Rebinder.State, p: seq<Byte>, now: nat)
    requires Endpoints(p).Some?
    ensures var (after, target) := s.Lookup(p, now);
      if Asked(p).Some? then
        var q := Asked(p).value; (after, target) == s.TargetOf(q.proto, q.port, q.peer, q.peerPort, now)
      else after == s && (target.Some? ==> FragmentOffset(p) != 0)
  {
    hide Rebinder.State.TargetOf, Transport, QuotedTransport;
  }

  lemma StepEntry(s: State, e: Event, own: Addr, subnet: RoomSubnet, k: Entry)
    requires subnet.Valid() && EntryOf(PumpLaws.Step(s, e, own, subnet).rebinder, k).Some?
    ensures var was, f := EntryOf(s.rebinder, k), EntryOf(PumpLaws.Step(s, e, own, subnet).rebinder, k).value;
      || (was.Some? && f.to == was.value.to && f.seen == was.value.seen)
      || (f.seen == e.now && OpensFor(s, e, own, subnet, k, f.to))
      || (f.seen == e.now && AsksFor(s, e, own, subnet, k) && was.Some? && f.to == was.value.to
          && Filter.Since(e.now, was.value.seen) < Rebinder.FLOW_IDLE)
  {
    hide State.Up, RoomSubnet.Valid, RoomSubnet.IsBroadcast, Rebinder.State.Outbound, Rebinder.State.Lookup,
         Rebinder.State.TargetOf, Rebinder.State.Opened, OpeningOf, Filter.State.Inbound, Asked, RoomCheck.IsProbe,
         RoomCheck.Answer, Filter.Merged, Rebinder.Delivered;
    match e
    case Sent(p, now, probe) =>
      UpTables(s, p, own, subnet, now, probe);
      OutboundTables(s.rebinder, p, own, subnet, now, probe);
      if OpeningOf(s.rebinder, p, own, subnet).Some? {
        OpenedEntry(s.rebinder, OpeningOf(s.rebinder, p, own, subnet).value, subnet, now, probe, k);
      }
    case Received(p, now) =>
      if Endpoints(p).Some? {
        LookupIs(s.rebinder, p, now);
        if Asked(p).Some? {
          TargetEntry(s.rebinder, Asked(p).value, now, k);
        }
      }
    case _ =>
  }

  /** The pieces noted: kept, or the first piece just handed over, with its target. */
  lemma StepPiece(s: State, e: Event, own: Addr, subnet: RoomSubnet, key: Filter.FragmentKey)
    requires subnet.Valid() && key in PumpLaws.Step(s, e, own, subnet).rebinder.fragments
    ensures var f := PumpLaws.Step(s, e, own, subnet).rebinder.fragments[key];
      || (key in s.rebinder.fragments && f == s.rebinder.fragments[key])
      || (f.at == e.now && e.Received? && IsFirstOf(e.p, key)
          && s.rebinder.Lookup(e.p, e.now).1 == Some(f.target))
  {
    hide State.Up, RoomSubnet.Valid, Rebinder.State.Outbound, Rebinder.State.TargetOf,
         Rebinder.State.Opened, OpeningOf, Filter.State.Inbound, RoomCheck.IsProbe, RoomCheck.Answer, Filter.Merged,
         Rebinder.Delivered;
    match e
    case Sent(p, now, probe) =>
      UpTables(s, p, own, subnet, now, probe);
      OutboundTables(s.rebinder, p, own, subnet, now, probe);
    case Received(p, now) =>
      if Endpoints(p).Some? {
        LookupIs(s.rebinder, p, now);
        if Asked(p).Some? {
          TargetEntry(s.rebinder, Asked(p).value, now, OfFlow(SOME_FLOW));
        }
      }
    case _ =>
  }

  // ---------------------------------------------------------------- over a run

  lemma {:induction false} RunLast(s: State, es: seq<Event>, own: Addr, subnet: RoomSubnet)
    requires subnet.Valid() && es != []
    ensures PumpLaws.Run(s, es, own, subnet)
         == PumpLaws.Step(PumpLaws.Run(s, es[..|es| - 1], own, subnet), es[|es| - 1], own, subnet)
    decreases |es|
  {
    hide PumpLaws.Step, RoomSubnet.Valid;
    var init := es[..|es| - 1];
    if |es| > 1 {
      RunLast(PumpLaws.Step(s, es[0], own, subnet), es[1..], own, subnet);
      assert es[1..][..|es| - 2] == init[1..] && init[0] == es[0];
    }
  }

  predicate NoEntries(s: State) {
    s.rebinder.flows == map[] && s.rebinder.searches == map[] && s.rebinder.fragments == map[]
  }

  /** The events are in order, and none is later than `now`. */
  predicate Until(es: seq<Event>, now: nat) { InOrder(es) && (es != [] ==> es[|es| - 1].now <= now) }

  /** Everything the tables hold is vouched for by packets of the run. */
  ghost predicate Explained(s: State, es: seq<Event>, own: Addr, subnet: RoomSubnet)
    requires subnet.Valid()
  {
    var r := PumpLaws.Run(s, es, own, subnet).rebinder;
    && (forall k :: EntryOf(r, k).Some? ==> EntryExplained(s, es, own, subnet, k, EntryOf(r, k).value))
    && (forall key :: key in r.fragments ==> PieceExplained(s, es, own, subnet, key, r.fragments[key]))
  }

  ghost predicate EntryExplained(s: State, es: seq<Event>, own: Addr, subnet: RoomSubnet, k: Entry, f: Rebinder.Flow)
    requires subnet.Valid()
  {
    es != [] && f.seen <= es[|es| - 1].now && Linked(s, es, own, subnet, k, f.to, f.seen)
  }

  ghost predicate PieceExplained(s: State, es: seq<Event>, own: Addr, subnet: RoomSubnet, key: Filter.FragmentKey,
                                 v: Rebinder.Vouched)
    requires subnet.Valid()
  {
    es != [] && v.at <= es[|es| - 1].now && FirstCame(s, es, own, subnet, key, v.target.to, v.at)
  }

  lemma {:induction false} LinkGrows(s: State, es: seq<Event>, own: Addr, subnet: RoomSubnet, k: Entry, to: Addr,
                                     t: nat)
    requires subnet.Valid() && es != [] && Linked(s, es[..|es| - 1], own, subnet, k, to, t)
    ensures Linked(s, es, own, subnet, k, to, t)
  {
    hide OpensFor, AsksFor, PumpLaws.Run, RoomSubnet.Valid;
    var init := es[..|es| - 1];
    var j: nat :| j < |init| && init[j].now == t && LinkAt(s, init, own, subnet, k, to, j);
    assert init[..j] == es[..j];
    assert LinkAt(s, es, own, subnet, k, to, j);
  }

  lemma FirstGrows(s: State, es: seq<Event>, own: Addr, subnet: RoomSubnet, key: Filter.FragmentKey, to: Addr, t: nat)
    requires subnet.Valid() && es != [] && FirstCame(s, es[..|es| - 1], own, subnet, key, to, t)
    ensures FirstCame(s, es, own, subnet, key, to, t)
  {
    hide Sourced, IsFirstOf, RoomSubnet.Valid;
    var init := es[..|es| - 1];
    var j: nat :| j < |init| && init[j].now == t && FirstAt(s, init, own, subnet, key, to, j);
    assert init[..j] == es[..j];
    assert FirstAt(s, es, own, subnet, key, to, j);
  }

  /** What is explained answers a question soundly. */
  lemma {:induction false} TargetSourced(s: State, es: seq<Event>, own: Addr, subnet: RoomSubnet, p: seq<Byte>,
                                         now: nat)
    requires subnet.Valid() && Explained(s, es, own, subnet) && Until(es, now) && Asked(p).Some?
    requires var q, r := Asked(p).value, PumpLaws.Run(s, es, own, subnet).rebinder;
      r.TargetOf(q.proto, q.port, q.peer, q.peerPort, now).1.Some?
    ensures var q, r := Asked(p).value, PumpLaws.Run(s, es, own, subnet).rebinder;
      Sourced(s, es, own, subnet, p, now, r.TargetOf(q.proto, q.port, q.peer, q.peerPort, now).1.value.to)
  {
    hide Asked, PumpLaws.Run, RoomSubnet.Valid, Rebinder.State.TargetOf, Linked, EntryOf;
    var q, r := Asked(p).value, PumpLaws.Run(s, es, own, subnet).rebinder;
    var target := r.TargetOf(q.proto, q.port, q.peer, q.peerPort, now).1;
    TargetIs(r, q, now);
    if target != Rebinder.ReboundTo(r.survey.rebound, q.proto, q.port) {
      var k :| k in q.Entries() && EntryOf(r, k).Some? && EntryOf(r, k).value.to == target.value.to
               && Filter.Since(now, EntryOf(r, k).value.seen) < Rebinder.FLOW_IDLE;
      assert EntryExplained(s, es, own, subnet, k, EntryOf(r, k).value);
    }
  }

  lemma {:induction false} EntryStays(s: State, es: seq<Event>, own: Addr, subnet: RoomSubnet, k: Entry)
    requires subnet.Valid() && es != [] && InOrder(es) && Explained(s, es[..|es| - 1], own, subnet)
    requires EntryOf(PumpLaws.Run(s, es, own, subnet).rebinder, k).Some?
    ensures EntryExplained(s, es, own, subnet, k, EntryOf(PumpLaws.Run(s, es, own, subnet).rebinder, k).value)
  {
    hide OpensFor, AsksFor, PumpLaws.Run, PumpLaws.Step, RoomSubnet.Valid, EntryOf, Linked;
    var n := |es| - 1;
    var before, e := PumpLaws.Run(s, es[..n], own, subnet), es[n];
    RunLast(s, es, own, subnet);
    StepEntry(before, e, own, subnet, k);
    var was, f := EntryOf(before.rebinder, k), EntryOf(PumpLaws.Step(before, e, own, subnet).rebinder, k).value;
    if was.Some? {
      assert EntryExplained(s, es[..n], own, subnet, k, was.value);
      LinkGrows(s, es, own, subnet, k, was.value.to, was.value.seen);
    }
    if !(was.Some? && f.to == was.value.to && f.seen == was.value.seen) {
      assert LinkAt(s, es, own, subnet, k, f.to, n);
      LinkedNow(s, es, own, subnet, k, f.to, n);
    }
  }

  lemma {:induction false} LinkedNow(s: State, es: seq<Event>, own: Addr, subnet: RoomSubnet, k: Entry, to: Addr,
                                     j: nat)
    requires subnet.Valid() && j < |es| && LinkAt(s, es, own, subnet, k, to, j)
    ensures Linked(s, es, own, subnet, k, to, es[j].now)
  {
  }

  lemma {:induction false} PieceStays(s: State, es: seq<Event>, own: Addr, subnet: RoomSubnet, key: Filter.FragmentKey)
    requires subnet.Valid() && es != [] && InOrder(es) && Explained(s, es[..|es| - 1], own, subnet)
    requires key in PumpLaws.Run(s, es, own, subnet).rebinder.fragments
    ensures PieceExplained(s, es, own, subnet, key, PumpLaws.Run(s, es, own, subnet).rebinder.fragments[key])
  {
    hide PumpLaws.Run, PumpLaws.Step, RoomSubnet.Valid, Sourced, Rebinder.State.TargetOf, Rebinder.State.Lookup, Asked;
    var n := |es| - 1;
    var before, e := PumpLaws.Run(s, es[..n], own, subnet), es[n];
    RunLast(s, es, own, subnet);
    StepPiece(before, e, own, subnet, key);
    var f := PumpLaws.Step(before, e, own, subnet).rebinder.fragments[key];
    if key in before.rebinder.fragments && f == before.rebinder.fragments[key] {
      assert PieceExplained(s, es[..n], own, subnet, key, f);
      FirstGrows(s, es, own, subnet, key, f.target.to, f.at);
    } else {
      LookupIs(before.rebinder, e.p, e.now);
      TargetSourced(s, es[..n], own, subnet, e.p, e.now);
      assert FirstAt(s, es, own, subnet, key, f.target.to, n);
    }
  }

  lemma {:induction false} RunExplained(s: State, es: seq<Event>, own: Addr, subnet: RoomSubnet)
    requires subnet.Valid() && NoEntries(s) && InOrder(es)
    ensures Explained(s, es, own, subnet)
  {
    hide EntryExplained, PieceExplained, RoomSubnet.Valid, PumpLaws.Step;
    if es != [] {
      RunExplained(s, es[..|es| - 1], own, subnet);
      var r := PumpLaws.Run(s, es, own, subnet).rebinder;
      forall k | EntryOf(r, k).Some? ensures EntryExplained(s, es, own, subnet, k, EntryOf(r, k).value) {
        EntryStays(s, es, own, subnet, k);
      }
      forall key | key in r.fragments ensures PieceExplained(s, es, own, subnet, key, r.fragments[key]) {
        PieceStays(s, es, own, subnet, key);
      }
    }
  }

  // ---------------------------------------------------------------- what is put in the room address's place

  /** The target of a packet, after `es`: a later piece goes where its datagram's first was about to. */
  ghost predicate GoesTo(s: State, es: seq<Event>, own: Addr, subnet: RoomSubnet, p: seq<Byte>, now: nat, to: Addr)
    requires subnet.Valid() && Endpoints(p).Some?
  {
    if FragmentOffset(p) == 0 then Sourced(s, es, own, subnet, p, now, to)
    else
      var key := Filter.FragmentKey(Endpoints(p).value.0, Word(p, 4), p[9]);
      exists t: nat :: t <= now < t + Rebinder.FRAGMENT_WINDOW && FirstCame(s, es, own, subnet, key, to, t)
  }

  /**
   Soundness.  Over every run, a packet handed over other than it came was addressed to the room
   address and is delivered to one target: the survey's for its port, or one whose own packets,
   with mirrored ports, it is linked to by uses less than FLOW_IDLE apart; or, a later piece, to
   what its datagram's first piece was, less than FRAGMENT_WINDOW ago.
   */
  lemma {:induction false} TranslatedIsSourced(s: State, es: seq<Event>, own: Addr, subnet: RoomSubnet, p: seq<Byte>,
                                               now: nat)
    requires subnet.Valid() && NoEntries(s) && Until(es, now)
    requires var outcome := PumpLaws.Run(s, es, own, subnet).Down(p, Some(own), subnet, now).1;
      outcome.Handed? && outcome.packet != p
    ensures Endpoints(p).Some? && Endpoints(p).value.1 == own
    ensures var x := PumpLaws.Run(s, es, own, subnet).Down(p, Some(own), subnet, now).1.packet;
      exists target: Rebinder.Target ::
        Rebinder.Delivered(p, target) == Some(x) && GoesTo(s, es, own, subnet, p, now, target.to)
  {
    hide PumpLaws.Run, RoomSubnet.Valid, Sourced, FirstCame, Asked, Rebinder.State.TargetOf, Rebinder.Delivered;
    RunExplained(s, es, own, subnet);
    var r := PumpLaws.Run(s, es, own, subnet);
    HandedIs(r, p, own, subnet, now);
    var target := r.rebinder.Lookup(p, now).1.value;
    LookupIs(r.rebinder, p, now);
    if FragmentOffset(p) == 0 {
      TargetSourced(s, es, own, subnet, p, now);
    } else {
      var key := Filter.FragmentKey(Endpoints(p).value.0, Word(p, 4), p[9]);
      assert PieceExplained(s, es, own, subnet, key, r.rebinder.fragments[key]);
    }
    assert GoesTo(s, es, own, subnet, p, now, target.to);
  }

  lemma HandedIs(s: State, p: seq<Byte>, own: Addr, subnet: RoomSubnet, now: nat)
    requires subnet.Valid()
    requires s.Down(p, Some(own), subnet, now).1.Handed? && s.Down(p, Some(own), subnet, now).1.packet != p
    ensures Endpoints(p).Some? && Endpoints(p).value.1 == own
    ensures var target := s.rebinder.Lookup(p, now).1;
      target.Some? && Rebinder.Delivered(p, target.value) == Some(s.Down(p, Some(own), subnet, now).1.packet)
  {
    hide RoomSubnet.Valid, Filter.State.Inbound, Filter.Merged, RoomCheck.IsProbe, RoomCheck.Answer,
         Rebinder.State.Lookup, Rebinder.Delivered;
  }

  /** The `j`-th event is a packet this machine sent from its own address `to`, noted under `k`. */
  predicate SentAt(s: State, es: seq<Event>, own: Addr, subnet: RoomSubnet, k: Entry, to: Addr, j: nat)
    requires subnet.Valid() && j < |es|
  {
    var before := PumpLaws.Run(s, es[..j], own, subnet);
    OpensFor(before, es[j], own, subnet, k, to) && to in before.rebinder.survey.locals
  }

  /** Following the links back ends at a packet `to` sent, mirroring the entry, when it was this machine's. */
  lemma {:induction false} LinkIsSent(s: State, es: seq<Event>, own: Addr, subnet: RoomSubnet, k: Entry, to: Addr,
                                      t: nat)
    requires subnet.Valid() && Linked(s, es, own, subnet, k, to, t)
    ensures exists j: nat :: j < |es| && es[j].now <= t && SentAt(s, es, own, subnet, k, to, j)
    decreases |es|
  {
    hide PumpLaws.Run, RoomSubnet.Valid, OpensFor, LinkAt, SentAt;
    var j: nat :| j < |es| && es[j].now == t && LinkAt(s, es, own, subnet, k, to, j);
    if OpensFor(PumpLaws.Run(s, es[..j], own, subnet), es[j], own, subnet, k, to) {
      OpenerIsSent(s, es, own, subnet, k, to, j);
    } else {
      var u := LinkBefore(s, es, own, subnet, k, to, j);
      LinkIsSent(s, es[..j], own, subnet, k, to, u);
      var i: nat :| i < j && es[..j][i].now <= u && SentAt(s, es[..j], own, subnet, k, to, i);
      SentGrows(s, es, j, own, subnet, k, to, i);
    }
  }

  lemma {:induction false} OpenerIsSent(s: State, es: seq<Event>, own: Addr, subnet: RoomSubnet, k: Entry, to: Addr,
                                        j: nat)
    requires subnet.Valid() && j < |es|
    requires OpensFor(PumpLaws.Run(s, es[..j], own, subnet), es[j], own, subnet, k, to)
    ensures SentAt(s, es, own, subnet, k, to, j)
  {
    hide PumpLaws.Run, RoomSubnet.Valid;
  }

  lemma LinkBefore(s: State, es: seq<Event>, own: Addr, subnet: RoomSubnet, k: Entry, to: Addr, j: nat)
      returns (u: nat)
    requires subnet.Valid() && j < |es| && LinkAt(s, es, own, subnet, k, to, j)
    requires !OpensFor(PumpLaws.Run(s, es[..j], own, subnet), es[j], own, subnet, k, to)
    ensures u <= es[j].now < u + Rebinder.FLOW_IDLE && Linked(s, es[..j], own, subnet, k, to, u)
  {
    hide PumpLaws.Run, RoomSubnet.Valid, OpensFor, AsksFor;
    u :| u <= es[j].now < u + Rebinder.FLOW_IDLE && Linked(s, es[..j], own, subnet, k, to, u);
  }

  /** `to` was this machine's address: it held a port of the game's, by a survey, or sent a packet. */
  ghost predicate WasOurs(s: State, es: seq<Event>, own: Addr, subnet: RoomSubnet, to: Addr)
    requires subnet.Valid()
  {
    || (exists j: nat, q :: j <= |es| && Surveyed(PumpLaws.Run(s, es[..j], own, subnet), q, to))
    || (exists j: nat, k :: j < |es| && SentAt(s, es, own, subnet, k, to, j))
  }

  lemma {:induction false} SourcedIsOurs(s: State, es: seq<Event>, n: nat, own: Addr, subnet: RoomSubnet,
                                         p: seq<Byte>, now: nat, to: Addr)
    requires subnet.Valid() && n <= |es| && Sourced(s, es[..n], own, subnet, p, now, to)
    ensures WasOurs(s, es, own, subnet, to)
  {
    hide PumpLaws.Run, RoomSubnet.Valid, Linked, SentAt, Surveyed;
    var q := Asked(p).value;
    if !Surveyed(PumpLaws.Run(s, es[..n], own, subnet), q, to) {
      var k, u: nat :|
        k in q.Entries() && u <= now < u + Rebinder.FLOW_IDLE && Linked(s, es[..n], own, subnet, k, to, u);
      LinkIsSent(s, es[..n], own, subnet, k, to, u);
      var j: nat :| j < n && es[..n][j].now <= u && SentAt(s, es[..n], own, subnet, k, to, j);
      SentGrows(s, es, n, own, subnet, k, to, j);
    }
  }

  lemma SentGrows(s: State, es: seq<Event>, n: nat, own: Addr, subnet: RoomSubnet, k: Entry, to: Addr, j: nat)
    requires subnet.Valid() && j < n <= |es| && SentAt(s, es[..n], own, subnet, k, to, j)
    ensures SentAt(s, es, own, subnet, k, to, j)
  {
    assert es[..n][..j] == es[..j];
  }

  /** So only this machine's addresses are ever put in the room address's place. */
  lemma {:induction false} OnlyOwnAddresses(s: State, es: seq<Event>, own: Addr, subnet: RoomSubnet, p: seq<Byte>,
                                            now: nat)
    requires subnet.Valid() && NoEntries(s) && Until(es, now)
    requires var outcome := PumpLaws.Run(s, es, own, subnet).Down(p, Some(own), subnet, now).1;
      outcome.Handed? && outcome.packet != p
    ensures var x := PumpLaws.Run(s, es, own, subnet).Down(p, Some(own), subnet, now).1.packet;
      exists target: Rebinder.Target ::
        Rebinder.Delivered(p, target) == Some(x) && WasOurs(s, es, own, subnet, target.to)
  {
    hide PumpLaws.Run, RoomSubnet.Valid, Sourced, WasOurs, Rebinder.Delivered, State.Down;
    TranslatedIsSourced(s, es, own, subnet, p, now);
    var x := PumpLaws.Run(s, es, own, subnet).Down(p, Some(own), subnet, now).1.packet;
    var target: Rebinder.Target :|
      Rebinder.Delivered(p, target) == Some(x) && GoesTo(s, es, own, subnet, p, now, target.to);
    if FragmentOffset(p) == 0 {
      assert es[..|es|] == es;
      SourcedIsOurs(s, es, |es|, own, subnet, p, now, target.to);
    } else {
      var key := Filter.FragmentKey(Endpoints(p).value.0, Word(p, 4), p[9]);
      var t: nat :| t <= now < t + Rebinder.FRAGMENT_WINDOW && FirstCame(s, es, own, subnet, key, target.to, t);
      var j: nat :| j < |es| && es[j].now == t && FirstAt(s, es, own, subnet, key, target.to, j);
      SourcedIsOurs(s, es, j, own, subnet, es[j].p, es[j].now, target.to);
    }
  }
}
