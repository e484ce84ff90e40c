/**
 Agreement in a room, over a mesh that loses, repeats and reorders whatever is sent.

 The world is a host and one of its members; the other members are in what the host's links may
 bring it, which is anything.  Everything the host ever sent on a link stays deliverable on it.
 Two records are for the theorems alone: every table the host has had, and, for each thing sent,
 how many tables there had been.
 */
module RoomProtocol {
  import opened Wire
  import opened Subnet
  import opened Members
  import opened Messages
  import opened RoomView
  import Host
  import HostLaws
  import HostSteps
  import MemberSide

  type LinkId = Host.LinkId

  datatype World = World(
    host: Host.State, member: MemberSide.State,
    seen: set<LinkId>,              // links the host has accepted, ever
    mine: set<LinkId>,              // links the member has asked for, ever
    connecting: Option<LinkId>,     // the one it is asking for now
    tables: seq<Table>,             // every table so far
    stamps: map<LinkId, seq<nat>>,  // which table each thing sent on a link was sent under
    born: map<LinkId, nat>,         // which table a link of the member's was asked for under
    at: Option<nat>)                // which table the member's view is a copy of

  datatype Step =
    | HostTurn(e: Host.Event)
    | Connect(link: LinkId)
    | Fails
    | MemberTurn(turn: MemberSide.Event)
    | Deliver(link: LinkId, k: nat)

  function Now(w: World): int { |w.tables| - 1 }

  function Stamps(w: World, l: LinkId): seq<nat> { if l in w.stamps then w.stamps[l] else [] }

  /**
   What may happen.  Link identifiers are new; a link the member asked for proves the member; the
   member asks for one link at a time, when it has none (the loop in `MemberSide::run`).
   */
  predicate May(w: World, step: Step) {
    match step
    case HostTurn(e) =>
      && w.host.Admissible(e) && (e.LinkEstablished? ==> e.link !in w.seen)
      && (e.PeerIdentified? && e.link in w.mine ==> e.identity == w.member.view.own)
    case Connect(l) => w.member.link.None? && w.connecting.None? && l !in w.seen && l !in w.mine
    case Fails => true
    case MemberTurn(e) => !e.LinkData? && (e.Up? ==> w.connecting == Some(e.link))
    case Deliver(l, k) => k < |Host.SentOn(w.host.log, l)| == |Stamps(w, l)|
  }

  predicate Ready(w: World) {
    && w.host.table.subnet.Valid() && w.host.gate.limit.Valid() && w.host.chatGate.limit.Valid()
    && w.member.view.subnet.Valid() && w.tables != []
  }

  function Pad(s: seq<nat>, n: nat, v: nat): (r: seq<nat>)
    ensures |r| == if |s| < n then n else |s|
    ensures s <= r && forall k :: |s| <= k < |r| ==> r[k] == v
  {
    s + seq(if |s| < n then n - |s| else 0, i => v)
  }

  /** Whether a delivery is a table the member takes. */
  predicate Takes(w: World, l: LinkId, m: LanMessage) {
    w.member.link == Some(l) && m.Members? && w.member.view.Takes(m.epoch)
  }

  function HostTurned(w: World, e: Host.Event): World
    requires Ready(w)
  {
    var host := w.host.OnEvent(e);
    var tables := Recorded(w.tables, w.host.table, host.table);
    w.(host := host, tables := tables, seen := if e.LinkEstablished? then w.seen + {e.link} else w.seen,
       stamps := Stamped(w.stamps, host.log, |tables| - 1))
  }

  /** The tables so far, with the new one if it changed. */
  function Recorded(tables: seq<Table>, before: Table, after: Table): (r: seq<Table>)
    ensures tables <= r
  {
    if after.epoch != before.epoch then tables + [after] else tables
  }

  /** The stamps so far, and `stamp` for whatever was just sent. */
  function Stamped(stamps: map<LinkId, seq<nat>>, log: Host.Log, stamp: nat): map<LinkId, seq<nat>> {
    map l | l in log :: Pad(if l in stamps then stamps[l] else [], |log[l]|, stamp)
  }

  function Delivered(w: World, l: LinkId, k: nat): World
    requires Ready(w) && k < |Host.SentOn(w.host.log, l)| == |Stamps(w, l)|
  {
    var m := Host.SentOn(w.host.log, l)[k];
    w.(member := w.member.OnEvent(MemberSide.LinkData(l, Encode(m))),
       at := if Takes(w, l, m) then Some(Stamps(w, l)[k]) else w.at)
  }

  function Do(w: World, step: Step): World
    requires Ready(w) && May(w, step)
  {
    match step
    case HostTurn(e) => HostTurned(w, e)
    case Connect(l) => w.(connecting := Some(l), mine := w.mine + {l}, born := w.born[l := Now(w)])
    case Fails => w.(connecting := None)
    case MemberTurn(e) =>
      w.(member := w.member.OnEvent(e), connecting := if e.Up? then None else w.connecting)
    case Deliver(l, k) => Delivered(w, l, k)
  }

  // ---------------------------------------------------------------- the invariant

  /** The tables are one chain: each counted, fewer than 2^31 changes in all. */
  ghost predicate Chain(tables: seq<Table>) {
    && 1 <= |tables| <= 0x8000_0000
    && (forall k :: 0 <= k < |tables| ==> tables[k].Valid() && tables[k].subnet == tables[0].subnet)
    && (forall k :: 0 <= k < |tables| ==> tables[k].epoch == (tables[0].epoch + k) % 0x1_0000_0000)
  }

  function SnapshotOf(t: Table): LanMessage { Members(t.epoch, t.subnet, t.members) }

  /** What was sent on a link: tables as they were, and, on the member's, ones since the link, with it in. */
  predicate WordOk(w: World, l: LinkId, m: LanMessage, stamp: nat) {
    && stamp < |w.tables| && !m.Unknown?
    && (m.Members? ==> m == SnapshotOf(w.tables[stamp]))
    && (l in w.mine ==> l in w.born && w.born[l] <= stamp)
    && (l in w.mine && m.Members? ==> Host.InTable(w.tables[stamp].members, w.member.view.own))
  }

  predicate LogOk(w: World, l: LinkId) {
    var words, stamps := Host.SentOn(w.host.log, l), Stamps(w, l);
    && |words| == |stamps| && (words != [] ==> l in w.seen)
    && forall k :: 0 <= k < |words| ==> WordOk(w, l, words[k], stamps[k])
  }

  ghost predicate HostOk(w: World) {
    && w.host.Valid() && Chain(w.tables) && w.tables[Now(w)] == w.host.table
    && (forall l :: LogOk(w, l))
    && w.host.links.Keys <= w.seen
    && (forall l :: l in w.mine && l in w.host.links && w.host.links[l].Some? ==>
          w.host.links[l].value == w.member.view.own)
    && (forall l :: l in w.mine ==> l in w.born && w.born[l] < |w.tables|)
  }

  /** A view copies the `k`-th table. */
  predicate Copies(view: View, t: Table) {
    view.members == t.members && view.epoch == t.epoch && view.subnet == t.subnet
  }

  predicate MemberOk(w: World) {
    var view := w.member.view;
    && view.subnet.Valid()
    && (w.at.None? ==> view.address.None?)
    && (w.at.Some? ==> w.at.value < |w.tables| && Copies(view, w.tables[w.at.value]))
    && (view.address.Some? ==> view.address == AddressOf(view.members, view.own))
    && (w.connecting.Some? ==> w.member.link.None? && Behind(w, w.connecting.value))
    && (w.member.link.None? ==> view.address.None?)
    && (w.member.link.Some? ==> w.member.link.value in w.mine)
    && (w.member.link.Some? && view.address.None? ==> Behind(w, w.member.link.value))
  }

  /** Nothing the view holds is newer than the link. */
  predicate Behind(w: World, l: LinkId) {
    l in w.mine && (w.at.Some? ==> l in w.born && w.at.value <= w.born[l])
  }

  ghost predicate Inv(w: World) { Ready(w) && HostOk(w) && MemberOk(w) }

  /** A room just opened, and a member yet to link to it. */
  function Start(host: Host.State, member: MemberSide.State): World {
    World(host, member, {}, {}, None, [host.table], map[], map[], None)
  }

  lemma StartInv(host: Host.State, member: MemberSide.State)
    requires host.Valid() && host.log == map[] && host.links == map[]
    requires member.link.None? && member.view.address.None? && member.view.subnet.Valid()
    ensures Inv(Start(host, member))
  {
  }

  // ---------------------------------------------------------------- a turn of the host

  lemma NextTable(tables: seq<Table>, t: Table)
    requires Chain(tables) && |tables| < 0x8000_0000 && t.Valid()
    requires t.epoch == (tables[|tables| - 1].epoch + 1) % 0x1_0000_0000 && t.subnet == tables[0].subnet
    ensures Chain(tables + [t])
  {
    hide Table.Valid;
    var e, n := tables[0].epoch, |tables| - 1;
    OneOn(e + n);
  }

  lemma OneOn(n: nat)
    ensures (n % 0x1_0000_0000 + 1) % 0x1_0000_0000 == (n + 1) % 0x1_0000_0000
  {
  }

  lemma WordsAfter(w: World, e: Host.Event, l: LinkId)
    requires Inv(w) && May(w, HostTurn(e)) && Chain(HostTurned(w, e).tables)
    requires HostTurned(w, e).tables[Now(HostTurned(w, e))] == w.host.OnEvent(e).table
    ensures LogOk(HostTurned(w, e), l)
  {
    hide Table.Valid, RoomSubnet.Valid, Host.State.OnEvent, Host.State.Valid, AddressOf, Chain, MemberOk;
    HostLaws.StepValid(w.host, e);
    HostSteps.StepSaid(w.host, e, l);
    HostSteps.StepLinks(w.host, e, l);
    var after := HostTurned(w, e);
    var was, words := Host.SentOn(w.host.log, l), Host.SentOn(after.host.log, l);
    assert LogOk(w, l);
    StampsAfter(w, e, l);
    forall k | 0 <= k < |words| ensures WordOk(after, l, words[k], Stamps(after, l)[k]) {
      if k < |was| {
        assert words[k] == words[..|was|][k] == was[k];
        assert WordOk(w, l, was[k], Stamps(w, l)[k]);
      } else {
        assert HostSteps.Honest(after.host, words[k], l);
        NewWordOk(w, e, l, words[k]);
      }
    }
  }

  lemma StampsAfter(w: World, e: Host.Event, l: LinkId)
    requires Ready(w) && |Stamps(w, l)| == |Host.SentOn(w.host.log, l)| <= |Host.SentOn(w.host.OnEvent(e).log, l)|
    ensures var after := HostTurned(w, e);
      Stamps(after, l) == Pad(Stamps(w, l), |Host.SentOn(after.host.log, l)|, Now(after))
  {
    hide Ready, Host.State.OnEvent, RoomSubnet.Valid;
  }

  lemma NewWordOk(w: World, e: Host.Event, l: LinkId, m: LanMessage)
    requires Inv(w) && May(w, HostTurn(e)) && l in w.host.links
    requires var after := HostTurned(w, e); after.host.Valid() && HostSteps.Honest(after.host, m, l)
    requires HostTurned(w, e).tables[Now(HostTurned(w, e))] == w.host.OnEvent(e).table
    ensures WordOk(HostTurned(w, e), l, m, Now(HostTurned(w, e)))
  {
    hide Table.Valid, RoomSubnet.Valid, Host.State.OnEvent, Host.State.Valid, AddressOf, Chain, MemberOk, LogOk;
    var after := HostTurned(w, e);
    HostSteps.StepLinks(w.host, e, l);
    if m.Members? {
      HostSteps.SeatIsInTable(after.host, l);
    }
  }

  lemma {:induction false} HostTurnTables(w: World, e: Host.Event)
    requires Inv(w) && May(w, HostTurn(e)) && |HostTurned(w, e).tables| <= 0x8000_0000
    ensures var after := HostTurned(w, e);
      && after.host.Valid() && Chain(after.tables) && after.tables[Now(after)] == after.host.table
      && w.tables <= after.tables
  {
    hide Table.Valid, RoomSubnet.Valid, Host.State.OnEvent, AddressOf, MemberOk, LogOk;
    HostLaws.StepValid(w.host, e);
    HostSteps.StepFollows(w.host, e);
    NextIsAhead(w.host.table.epoch);
    var t := w.host.OnEvent(e).table;
    if t.epoch != w.host.table.epoch {
      assert w.tables[Now(w)].subnet == w.tables[0].subnet;
      NextTable(w.tables, t);
    }
  }

  lemma ValidIsReady(host: Host.State)
    requires host.Valid()
    ensures host.table.subnet.Valid() && host.gate.limit.Valid() && host.chatGate.limit.Valid()
  {
    hide Table.Valid, RoomSubnet.Valid;
  }

  lemma {:induction false} HostTurnOk(w: World, e: Host.Event)
    requires Inv(w) && May(w, HostTurn(e)) && |HostTurned(w, e).tables| <= 0x8000_0000
    ensures Inv(HostTurned(w, e))
  {
    hide Table.Valid, RoomSubnet.Valid, Host.State.OnEvent, Host.State.Valid, AddressOf, LogOk, Chain;
    HostTurnTables(w, e);
    var after := HostTurned(w, e);
    ValidIsReady(after.host);
    forall l ensures LogOk(after, l) {
      WordsAfter(w, e, l);
    }
    forall l ensures l in after.host.links ==> l in after.seen
             ensures l in w.mine && l in after.host.links && after.host.links[l].Some? ==>
                       after.host.links[l].value == w.member.view.own
    {
      HostSteps.StepLinks(w.host, e, l);
    }
  }

  // ---------------------------------------------------------------- a turn of the member

  lemma SentOnlyTouches(s: MemberSide.State, e: MemberSide.Event)
    requires s.view.subnet.Valid() && !e.LinkData?
    ensures var after := s.OnEvent(e);
      && after.view == (if e.LinkClosed? && s.link == Some(e.link) then s.view.(address := None, chat := false)
                        else s.view)
      && after.link == (if e.Up? then Some(e.link)
                        else if e.LinkClosed? && s.link == Some(e.link) then None else s.link)
  {
    hide RoomSubnet.Valid;
  }

  lemma {:induction false} MemberTurnOk(w: World, e: MemberSide.Event)
    requires Inv(w) && May(w, MemberTurn(e))
    ensures Inv(Do(w, MemberTurn(e)))
  {
    hide Table.Valid, RoomSubnet.Valid, Host.State.Valid, MemberSide.State.OnEvent, AddressOf, Chain, WordOk;
    SentOnlyTouches(w.member, e);
    var after := Do(w, MemberTurn(e));
    forall l ensures LogOk(after, l) {
      assert LogOk(w, l);
      SameLogOk(w, after, l);
    }
  }

  /** What was sent stays as good, whatever the member does. */
  lemma SameLogOk(w: World, after: World, l: LinkId)
    requires LogOk(w, l) && after.host == w.host && after.tables == w.tables && after.stamps == w.stamps
    requires after.seen == w.seen
    requires after.member.view.own == w.member.view.own
    requires l in after.mine ==> (l in w.mine && after.born == w.born) || Host.SentOn(w.host.log, l) == []
    ensures LogOk(after, l)
  {
    hide AddressOf, RoomSubnet.Valid;
    forall k | 0 <= k < |Host.SentOn(w.host.log, l)|
      ensures WordOk(after, l, Host.SentOn(w.host.log, l)[k], Stamps(w, l)[k])
    {
      assert WordOk(w, l, Host.SentOn(w.host.log, l)[k], Stamps(w, l)[k]);
    }
  }

  lemma {:induction false} ConnectOk(w: World, link: LinkId)
    requires Inv(w) && May(w, Connect(link))
    ensures Inv(Do(w, Connect(link)))
  {
    hide Table.Valid, RoomSubnet.Valid, Host.State.Valid, AddressOf, Chain;
    var after := Do(w, Connect(link));
    forall l ensures LogOk(after, l) {
      assert LogOk(w, l);
      if l != link {
        BornElsewhere(w, after, l);
      }
    }
  }

  lemma BornElsewhere(w: World, after: World, l: LinkId)
    requires LogOk(w, l) && after.host == w.host && after.tables == w.tables && after.stamps == w.stamps
    requires after.seen == w.seen
    requires after.member == w.member && (l in after.mine <==> l in w.mine)
    requires (l in after.born <==> l in w.born) && (l in w.born ==> after.born[l] == w.born[l])
    ensures LogOk(after, l)
  {
    hide AddressOf, RoomSubnet.Valid;
    forall k | 0 <= k < |Host.SentOn(w.host.log, l)|
      ensures WordOk(after, l, Host.SentOn(w.host.log, l)[k], Stamps(w, l)[k])
    {
      assert WordOk(w, l, Host.SentOn(w.host.log, l)[k], Stamps(w, l)[k]);
    }
  }

  // ---------------------------------------------------------------- a delivery

  /** Only a table arrives as a table, and as the table it was. */
  lemma {:induction false} ArrivesAs(m: LanMessage)
    requires !m.Unknown? && (m.Members? ==> m.subnet.Valid() && |m.members| <= MAX_MEMBERS)
    ensures if m.Members? then Decode(Encode(m)) == Ok(m)
            else !(Decode(Encode(m)).Ok? && Decode(Encode(m)).value.Members?)
  {
    hide RoomSubnet.Valid, Decode, Encode;
    RoundTrip(m);
    if Decode(Encode(m)).Ok? && Decode(Encode(m)).value.Members? {
      OnlyKindTwo(Encode(m));
      KindTwo(m);
    }
  }

  lemma OnlyKindTwo(b: seq<Byte>)
    requires Decode(b).Ok? && Decode(b).value.Members?
    ensures b != [] && b[0] == 2
  {
    hide RoomSubnet.Valid, New, ReadMembers, ReadNames;
  }

  lemma KindTwo(m: LanMessage)
    requires !m.Unknown? && Encode(m)[0] == 2
    ensures m.Members?
  {
    hide RoomSubnet.Valid, NameEntries, MemberEntries, First32;
  }

  /** Told anything but a table, a member keeps its link, its table and its address. */
  lemma OtherWords(s: MemberSide.State, m: Decoded<LanMessage>)
    requires s.view.subnet.Valid() && !(m.Ok? && m.value.Members?)
    ensures var after := s.Told(m);
      && after.link == s.link
      && after.view == s.view.(refused := after.view.refused, names := after.view.names, chat := after.view.chat)
  {
    hide RoomSubnet.Valid, RoomSubnet.IsBroadcast;
  }

  lemma TableWord(s: MemberSide.State, epoch: U32, subnet: RoomSubnet, members: seq<Member>)
    ensures var after := s.TableTaken(epoch, subnet, members);
      after.link == s.link && after.view == s.view.Applied(epoch, subnet, members)
  {
    hide AddressOf;
  }

  /** A delivered table, on the member's link, is applied. */
  lemma {:induction false} TableDelivered(s: MemberSide.State, l: LinkId, t: Table)
    requires s.view.subnet.Valid() && s.link == Some(l) && t.subnet.Valid() && |t.members| <= MAX_MEMBERS
    ensures var after := s.OnEvent(MemberSide.LinkData(l, Encode(SnapshotOf(t))));
      after.link == s.link && after.view == s.view.Applied(t.epoch, t.subnet, t.members)
  {
    hide RoomSubnet.Valid, AddressOf, Encode, Decode, MemberSide.State.Told, MemberSide.State.TableTaken;
    ArrivesAs(SnapshotOf(t));
    ToldTable(s, t.epoch, t.subnet, t.members);
    TableWord(s, t.epoch, t.subnet, t.members);
  }

  /** Anything else leaves the member's copy, address and link alone. */
  lemma {:induction false} OtherDelivered(s: MemberSide.State, l: LinkId, m: LanMessage)
    requires s.view.subnet.Valid() && !m.Unknown? && (s.link != Some(l) || !m.Members?)
    ensures var after := s.OnEvent(MemberSide.LinkData(l, Encode(m)));
      after.link == s.link
      && after.view == s.view.(refused := after.view.refused, names := after.view.names, chat := after.view.chat)
  {
    hide RoomSubnet.Valid, AddressOf, Encode, Decode, MemberSide.State.Told;
    if s.link == Some(l) {
      ArrivesAs(m);
      OtherWords(s, Decode(Encode(m)));
    }
  }

  lemma WordAt(w: World, l: LinkId, k: nat)
    requires Inv(w) && May(w, Deliver(l, k))
    ensures var m, stamp := Host.SentOn(w.host.log, l)[k], Stamps(w, l)[k];
      && stamp < |w.tables| && !m.Unknown?
      && (m.Members? ==> m == SnapshotOf(w.tables[stamp]) && w.tables[stamp].subnet.Valid()
                         && |w.tables[stamp].members| <= MAX_MEMBERS)
  {
    hide RoomSubnet.Valid, Host.State.Valid, MemberOk, AddressOf;
    assert LogOk(w, l);
    assert WordOk(w, l, Host.SentOn(w.host.log, l)[k], Stamps(w, l)[k]);
    TableIsSendable(w.tables, Stamps(w, l)[k]);
  }

  /** What a delivery does to the view: nothing of note, or, taken, it becomes the table sent. */
  lemma {:induction false} DeliveryIs(w: World, l: LinkId, k: nat)
    requires Inv(w) && May(w, Deliver(l, k))
    ensures var m, stamp, after := Host.SentOn(w.host.log, l)[k], Stamps(w, l)[k], Delivered(w, l, k).member;
      && after.link == w.member.link && after.view.own == w.member.view.own
      && if Takes(w, l, m) then stamp < |w.tables| && Becomes(after.view, w.tables[stamp])
         else SameCopy(after.view, w.member.view)
  {
    hide RoomSubnet.Valid, AddressOf, Encode, MemberSide.State.OnEvent, HostOk, MemberOk;
    var m, stamp := Host.SentOn(w.host.log, l)[k], Stamps(w, l)[k];
    WordAt(w, l, k);
    if m.Members? && w.member.link == Some(l) {
      TableDelivered(w.member, l, w.tables[stamp]);
    } else {
      OtherDelivered(w.member, l, m);
    }
  }

  predicate Becomes(view: View, t: Table) { Copies(view, t) && view.address == AddressOf(t.members, view.own) }

  predicate SameCopy(v: View, u: View) {
    v.address == u.address && v.members == u.members && v.epoch == u.epoch && v.subnet == u.subnet
  }

  lemma ToldTable(s: MemberSide.State, epoch: U32, subnet: RoomSubnet, members: seq<Member>)
    requires s.view.subnet.Valid()
    ensures s.Told(Ok(Members(epoch, subnet, members))) == s.TableTaken(epoch, subnet, members)
  {
    hide RoomSubnet.Valid, MemberSide.State.TableTaken;
  }

  lemma TableIsSendable(tables: seq<Table>, k: nat)
    requires Chain(tables) && k < |tables|
    ensures tables[k].subnet.Valid() && |tables[k].members| <= MAX_MEMBERS
  {
    hide RoomSubnet.Valid;
    assert tables[k].Valid();
  }

  /** A table a member takes is never older than the one it has. */
  lemma {:induction false} TakenIsNewer(w: World, l: LinkId, k: nat)
    requires Inv(w) && May(w, Deliver(l, k)) && Takes(w, l, Host.SentOn(w.host.log, l)[k])
    ensures w.at.Some? ==> w.at.value <= Stamps(w, l)[k]
  {
    hide Table.Valid, RoomSubnet.Valid, Host.State.Valid, AddressOf;
    assert LogOk(w, l);
    var m, stamp := Host.SentOn(w.host.log, l)[k], Stamps(w, l)[k];
    assert WordOk(w, l, m, stamp);
    if w.at.Some? && w.member.view.address.Some? {
      var e, j := w.tables[0].epoch, w.at.value;
      assert w.tables[j].epoch == (e + j) % 0x1_0000_0000 && m.epoch == (e + stamp) % 0x1_0000_0000;
      EpochOrder(e, j, stamp);
    }
  }

  /** Among fewer than 2^31 changes, the wrapped comparison tells which epoch is later. */
  lemma EpochOrder(e: U32, j: nat, k: nat)
    requires j < 0x8000_0000 && k < 0x8000_0000
    ensures Ahead((e + k) % 0x1_0000_0000, (e + j) % 0x1_0000_0000) <==> k > j
    ensures (e + k) % 0x1_0000_0000 == (e + j) % 0x1_0000_0000 <==> k == j
  {
  }

  lemma {:induction false} DeliverOk(w: World, l: LinkId, k: nat)
    requires Inv(w) && May(w, Deliver(l, k))
    ensures Inv(Delivered(w, l, k))
  {
    hide Table.Valid, RoomSubnet.Valid, Host.State.Valid, AddressOf, Chain, WordOk, MemberSide.State.OnEvent;
    DeliveryIs(w, l, k);
    var after := Delivered(w, l, k);
    forall o ensures LogOk(after, o) {
      assert LogOk(w, o);
      SameLogOk(w, after, o);
    }
    DeliveredViewOk(w, l, k);
  }

  lemma {:induction false} DeliveredViewOk(w: World, l: LinkId, k: nat)
    requires Inv(w) && May(w, Deliver(l, k))
    ensures MemberOk(Delivered(w, l, k))
  {
    hide Table.Valid, Host.State.Valid, AddressOf, RoomSubnet.Valid, MemberSide.State.OnEvent;
    DeliveryIs(w, l, k);
    assert LogOk(w, l);
    var m, stamp := Host.SentOn(w.host.log, l)[k], Stamps(w, l)[k];
    assert WordOk(w, l, m, stamp);
    TableIsSendable(w.tables, stamp);
  }

  // ---------------------------------------------------------------- every run

  /** The invariant holds whatever happens, while there have been fewer than 2^31 changes. */
  lemma {:induction false} StepInv(w: World, step: Step)
    requires Inv(w) && May(w, step) && |Do(w, step).tables| <= 0x8000_0000
    ensures Inv(Do(w, step))
  {
    hide Table.Valid, RoomSubnet.Valid, Host.State.Valid, AddressOf, Chain, WordOk;
    match step
    case HostTurn(e) => HostTurnOk(w, e);
    case Connect(l) => ConnectOk(w, l);
    case Fails =>
      forall l ensures LogOk(Do(w, Fails), l) {
        assert LogOk(w, l);
        SameLogOk(w, Do(w, Fails), l);
      }
    case MemberTurn(e) => MemberTurnOk(w, e);
    case Deliver(l, k) => DeliverOk(w, l, k);
  }

  ghost predicate CanRun(w: World, steps: seq<Step>)
    requires Inv(w)
    decreases |steps|
  {
    steps != [] ==>
      && May(w, steps[0]) && |Do(w, steps[0]).tables| <= 0x8000_0000
      && (StepInv(w, steps[0]); CanRun(Do(w, steps[0]), steps[1..]))
  }

  ghost function Run(w: World, steps: seq<Step>): World
    requires Inv(w) && CanRun(w, steps)
    decreases |steps|
  {
    if steps == [] then w else StepInv(w, steps[0]); Run(Do(w, steps[0]), steps[1..])
  }

  /** Where the member's copy stands among the host's tables: none yet is before all. */
  function Place(w: World): int { if w.at.Some? then w.at.value else -1 }

  /** A step never takes a member's copy back, nor a table out of the host's history. */
  lemma {:induction false} StepForward(w: World, step: Step)
    requires Inv(w) && May(w, step) && |Do(w, step).tables| <= 0x8000_0000
    ensures Place(w) <= Place(Do(w, step)) && w.tables <= Do(w, step).tables
  {
    hide Table.Valid, RoomSubnet.Valid, Host.State.Valid, AddressOf, Chain, WordOk;
    if step.Deliver? && Takes(w, step.link, Host.SentOn(w.host.log, step.link)[step.k]) {
      TakenIsNewer(w, step.link, step.k);
    }
  }

  /**
   Agreement, over every run: the member's copy only moves forward, across reconnects too, and is
   always, whole, one of the tables the host had.
   */
  lemma {:induction false} RunAgrees(w: World, steps: seq<Step>)
    requires Inv(w) && CanRun(w, steps)
    ensures var after := Run(w, steps);
      && Inv(after) && Place(w) <= Place(after) && w.tables <= after.tables
      && (after.at.Some? ==>
            after.at.value < |after.tables| && Copies(after.member.view, after.tables[after.at.value]))
    decreases |steps|
  {
    hide Table.Valid, RoomSubnet.Valid, Host.State.Valid, AddressOf, Chain, WordOk, LogOk;
    if steps != [] {
      StepInv(w, steps[0]);
      StepForward(w, steps[0]);
      RunAgrees(Do(w, steps[0]), steps[1..]);
    }
  }

  /** A view at an epoch is the table at that epoch: equal epochs mean equal tables. */
  lemma EpochIsTable(w: World, k: nat)
    requires Inv(w) && w.at.Some? && k < |w.tables| && w.tables[k].epoch == w.member.view.epoch
    ensures Copies(w.member.view, w.tables[k]) && k == w.at.value
  {
    hide Table.Valid, RoomSubnet.Valid, Host.State.Valid, AddressOf;
    EpochOrder(w.tables[0].epoch, w.at.value, k);
  }

  /**
   Repair: in any reachable state, the host's present table, delivered on the member's link, makes
   the member's view that table, with the member's address in it.
   */
  lemma {:induction false} PresentTableRepairs(w: World, l: LinkId)
    requires Inv(w) && w.member.link == Some(l)
    ensures w.member.view.subnet.Valid()
    ensures var view := w.member.OnEvent(MemberSide.LinkData(l, Encode(w.host.Snapshot()))).view;
      Copies(view, w.host.table) && Host.Shows(view, w.host.table)
  {
    hide RoomSubnet.Valid, Host.State.Valid, AddressOf, Encode, MemberSide.State.OnEvent;
    TableIsSendable(w.tables, Now(w));
    TableDelivered(w.member, l, w.host.table);
    if w.at.Some? {
      EpochOrder(w.tables[0].epoch, w.at.value, Now(w));
    }
  }

  /** And the host's refresh timer sends just that, to every seat, first thing. */
  lemma {:induction false} RefreshSends(w: World, l: LinkId)
    requires Inv(w) && l in w.host.Seats()
    ensures var refreshed, k := HostTurned(w, Host.Refresh), |Host.SentOn(w.host.log, l)|;
      && Inv(refreshed) && refreshed.host.table == w.host.table && refreshed.member == w.member
      && k < |Host.SentOn(refreshed.host.log, l)| && Host.SentOn(refreshed.host.log, l)[k] == w.host.Snapshot()
  {
    hide Table.Valid, RoomSubnet.Valid, Host.State.Valid, AddressOf, MemberOk, LogOk, Host.State.Published;
    HostLaws.PublishedLog(w.host, l);
    HostLaws.PublishedTouches(w.host);
    HostTurnOk(w, Host.Refresh);
  }

  lemma {:induction false} RefreshRepairs(w: World, l: LinkId)
    requires Inv(w) && w.member.link == Some(l) && l in w.host.Seats()
    ensures Repairs(HostTurned(w, Host.Refresh), l, |Host.SentOn(w.host.log, l)|, w.host.table)
  {
    hide HostOk, MemberOk, Encode, RoomSubnet.Valid, MemberSide.State.OnEvent, HostTurned;
    var refreshed, k := HostTurned(w, Host.Refresh), |Host.SentOn(w.host.log, l)|;
    RefreshSends(w, l);
    StampsMatch(refreshed, l);
    PresentTableRepairs(refreshed, l);
  }

  /** The `k`-th thing sent on a link may arrive, and then makes the member's view `t`. */
  predicate Repairs(w: World, l: LinkId, k: nat, t: Table) {
    && Ready(w) && May(w, Deliver(l, k)) && w.host.table == t
    && Host.Shows(Delivered(w, l, k).member.view, t)
  }

  lemma StampsMatch(w: World, l: LinkId)
    requires Inv(w)
    ensures |Stamps(w, l)| == |Host.SentOn(w.host.log, l)|
  {
    hide Ready, MemberOk, Host.State.Valid, Chain, WordOk;
    assert LogOk(w, l);
  }
}
