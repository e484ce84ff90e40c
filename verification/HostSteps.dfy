/** What one turn of a host does to its table, its links, and what it has said on each link. */
module HostSteps {
  import opened Wire
  import opened Subnet
  import opened Members
  import opened Messages
  import opened Host
  import opened HostLaws
  import Gates

  // ---------------------------------------------------------------- the table

  /** One change at a time, each counted. */
  predicate Follows(before: Table, after: Table) {
    after == before || (after.epoch == (before.epoch + 1) % 0x1_0000_0000 && after.subnet == before.subnet)
  }

  lemma SeatFollows(s: State, link: LinkId, identity: Identity)
    requires s.Valid()
    ensures Follows(s.table, s.Seat(link, identity).table) && s.Seat(link, identity).own == s.own
  {
    hide Table.Valid, Table.Admitted, RoomSubnet.Valid, SeatsProved, SeatsInTable, OnlySeated, Shows, NamesOf,
         AddressOf, State.Published, State.Greeted, Cast, FirstChoice, RoomSubnet.IsAssignable;
    AdmitMeets(s.table, identity);
    var seating := s.(links := s.links[link := Some(identity)], table := s.table.Admitted(identity).0,
                      seated := s.seated[identity := link]);
    PublishedTouches(seating);
    GreetedTouches(seating, link);
  }

  lemma CloseFollows(s: State, link: LinkId)
    requires s.Valid()
    ensures Follows(s.table, s.Closed(link).table) && s.Closed(link).own == s.own
  {
    hide Table.Valid, Table.Removed, RoomSubnet.Valid, SeatsProved, SeatsInTable, OnlySeated, Shows, NamesOf,
         AddressOf;
    if link in s.links && s.links[link].Some? {
      RemoveMeets(s.table, s.links[link].value);
    }
  }

  lemma ToldTouches(s: State, link: LinkId, identity: Identity, m: Decoded<LanMessage>, now: nat)
    requires s.table.subnet.Valid() && s.gate.limit.Valid() && s.chatGate.limit.Valid()
    ensures var after := s.Told(link, identity, m, now);
      after.table == s.table && after.links == s.links && after.seated == s.seated && after.own == s.own
  {
    hide RoomSubnet.Valid, NamesOf, Gates.Gate.Allow, State.Forward;
    match m
    case Ok(Packet(p)) => ForwardTouches(s, identity, Some(link), p, now);
    case _ =>
  }

  lemma DataTouches(s: State, link: LinkId, bytes: seq<Byte>, now: nat)
    requires s.table.subnet.Valid() && s.gate.limit.Valid() && s.chatGate.limit.Valid()
    ensures var after := s.Data(link, bytes, now);
      after.table == s.table && after.links == s.links && after.seated == s.seated && after.own == s.own
  {
    hide RoomSubnet.Valid, State.Told, Decode;
    if link in s.links && s.links[link].Some? {
      ToldTouches(s, link, s.links[link].value, Decode(bytes), now);
    }
  }

  lemma {:induction false} StepFollows(s: State, e: Event)
    requires s.Valid()
    ensures Follows(s.table, s.OnEvent(e).table) && s.OnEvent(e).own == s.own
  {
    hide Table.Valid, RoomSubnet.Valid, SeatsProved, SeatsInTable, OnlySeated, Shows, NamesOf, AddressOf,
         State.Seat, State.Closed, State.Data, State.Forward;
    match e
    case PeerIdentified(link, identity) => SeatFollows(s, link, identity);
    case LinkClosed(link) => CloseFollows(s, link);
    case LinkData(link, bytes, now) => DataTouches(s, link, bytes, now);
    case FromAdapter(p, now) => ForwardTouches(s, s.own, None, p, now);
    case _ =>
  }

  // ---------------------------------------------------------------- the links

  lemma SeatLinks(s: State, link: LinkId, identity: Identity)
    requires s.table.subnet.Valid()
    ensures s.Seat(link, identity).links == if link in s.links then s.links[link := Some(identity)] else s.links
  {
    hide Table.Admitted, RoomSubnet.Valid, NamesOf, AddressOf, Cast;
  }

  lemma CloseLinks(s: State, link: LinkId)
    ensures s.Closed(link).links == s.links - {link}
  {
    hide Table.Removed, NamesOf, AddressOf, Cast;
    if link !in s.links {
      assert s.links - {link} == s.links;
    }
  }

  /** Links appear when established, and are proved only by what they identify as. */
  lemma {:induction false} StepLinks(s: State, e: Event, l: LinkId)
    requires s.Valid()
    ensures var after := s.OnEvent(e);
      && (l in after.links ==> l in s.links || e == LinkEstablished(l))
      && (l in after.links && after.links[l].Some? ==>
            (l in s.links && s.links[l] == after.links[l]) || e == PeerIdentified(l, after.links[l].value))
  {
    hide Table.Valid, RoomSubnet.Valid, SeatsProved, SeatsInTable, OnlySeated, Shows, NamesOf, AddressOf,
         State.Data, State.Forward, State.Seat, State.Closed;
    match e
    case PeerIdentified(link, identity) => SeatLinks(s, link, identity);
    case LinkClosed(link) => CloseLinks(s, link);
    case LinkData(link, bytes, now) => DataTouches(s, link, bytes, now);
    case FromAdapter(p, now) => ForwardTouches(s, s.own, None, p, now);
    case _ =>
  }

  // ---------------------------------------------------------------- what is said

  /** One link's log only grows, and by true words: any table on it is the table now, told to a seat. */
  predicate Said(s: State, after: State, l: LinkId) {
    var was, sent := SentOn(s.log, l), SentOn(after.log, l);
    && |was| <= |sent| && sent[..|was|] == was
    && (sent != was ==> l in s.links)
    && forall k :: |was| <= k < |sent| ==> Honest(after, sent[k], l)
  }

  predicate Honest(s: State, m: LanMessage, l: LinkId) {
    !m.Unknown? && (m.Members? ==> m == s.Snapshot() && l in s.Seats())
  }

  lemma SaidAll(s: State, before: State, after: State, l: LinkId, words: seq<LanMessage>)
    requires before.log == s.log
    requires SentOn(after.log, l) == SentOn(before.log, l) + words
    requires words != [] ==> l in s.links
    requires forall k :: 0 <= k < |words| ==> Honest(after, words[k], l)
    ensures Said(s, after, l)
  {
  }

  /** Greeting a seat. */
  lemma GreetedSaid(s: State, before: State, link: LinkId, l: LinkId)
    requires before.log == s.log && link in s.links && link in before.Seats()
    ensures Said(s, before.Greeted(link), l)
  {
    hide NamesOf;
    GreetedLog(before, link, l);
    GreetedTouches(before, link);
    SaidAll(s, before, before.Greeted(link), l, if l == link then [before.Snapshot(), before.NamesNow()] else []);
  }

  /** Publishing to every seat. */
  lemma PublishedSaid(s: State, before: State, l: LinkId)
    requires before.log == s.log && (l in before.Seats() ==> l in s.links)
    ensures Said(s, before.Published(), l)
  {
    hide NamesOf, AddressOf;
    PublishedLog(before, l);
    PublishedTouches(before);
    SaidAll(s, before, before.Published(), l,
            if l in before.Seats() then [before.Snapshot(), before.NamesNow()] else []);
  }

  lemma {:induction false} SeatedSaid(s: State, link: LinkId, identity: Identity, l: LinkId)
    requires s.Valid() && link in s.links && Seatable(s, identity) && s.table.Admitted(identity).1.Seated?
    ensures Said(s, s.Seat(link, identity), l)
  {
    hide Table.Valid, Table.Admitted, RoomSubnet.Valid, SeatsInTable, OnlySeated, Shows, NamesOf, AddressOf,
         State.Published, State.Greeted, Said;
    var after := s.table.Admitted(identity).0;
    var seating := s.(links := s.links[link := Some(identity)], table := after, seated := s.seated[identity := link]);
    SeatsAfter(s.seated, identity, link);
    if after.epoch != s.table.epoch {
      PublishedSaid(s, seating, l);
    } else {
      GreetedSaid(s, seating, link, l);
    }
  }

  lemma {:induction false} SeatSaid(s: State, link: LinkId, identity: Identity, l: LinkId)
    requires s.Valid()
    ensures Said(s, s.Seat(link, identity), l)
  {
    hide Table.Valid, Table.Admitted, RoomSubnet.Valid, SeatsInTable, OnlySeated, Shows, NamesOf, AddressOf,
         State.Published, State.Greeted, State.Seat, Said;
    if link in s.links && Seatable(s, identity) && s.table.Admitted(identity).1.Seated? {
      SeatedSaid(s, link, identity, l);
    } else {
      RefusedSaid(s, link, identity, l);
    }
  }

  lemma RefusedSaid(s: State, link: LinkId, identity: Identity, l: LinkId)
    requires s.Valid() && !(link in s.links && Seatable(s, identity) && s.table.Admitted(identity).1.Seated?)
    ensures Said(s, s.Seat(link, identity), l)
  {
    hide State.Valid, Table.Admitted, Table.Valid, NamesOf, AddressOf, State.Published, State.Greeted;
  }

  lemma SeatsAfter(seated: map<Identity, LinkId>, identity: Identity, link: LinkId)
    ensures link in LinksOf(seated[identity := link]) && LinksOf(seated[identity := link]) <= LinksOf(seated) + {link}
    ensures LinksOf(seated - {identity}) <= LinksOf(seated)
  {
    var after := seated[identity := link];
    assert after[identity] == link;
  }

  lemma {:induction false} CloseSaid(s: State, link: LinkId, l: LinkId)
    requires s.Valid()
    ensures Said(s, s.Closed(link), l)
  {
    hide Table.Valid, Table.Removed, RoomSubnet.Valid, SeatsInTable, OnlySeated, Shows, NamesOf, AddressOf,
         State.Published;
    if link in s.links && s.links[link].Some? && s.SeatedOn(s.links[link].value, link) {
      var identity := s.links[link].value;
      var left := s.(links := s.links - {link}, seated := s.seated - {identity}, names := s.names - {identity},
                     gate := s.gate.Forget(identity), chatGate := s.chatGate.Forget(identity),
                     table := s.table.Removed(identity));
      SeatsAfter(s.seated, identity, link);
      PublishedSaid(s, left, l);
    }
  }

  /** One packet, to some of the seats. */
  lemma CastSaid(s: State, after: State, heard: set<LinkId>, p: seq<Byte>, l: LinkId)
    requires SeatsProved(s.links, s.seated) && heard <= s.Seats() && after.log == Cast(s.log, heard, Packet(p))
    ensures Said(s, after, l)
  {
    hide Cast;
    SaidAll(s, s, after, l, if l in heard then [Packet(p)] else []);
  }

  lemma NothingSaid(s: State, after: State, l: LinkId)
    requires after.log == s.log
    ensures Said(s, after, l)
  {
  }

  lemma {:induction false} ForwardSaid(s: State, sender: Identity, from: Option<LinkId>, p: seq<Byte>, now: nat,
                                       l: LinkId)
    requires s.Valid()
    ensures Said(s, s.Forward(sender, from, p, now), l)
  {
    hide Table.Valid, RoomSubnet.Valid, SeatsProved, SeatsInTable, OnlySeated, Shows, NamesOf, RouteOf,
         Gates.Gate.Allow, Said, Cast;
    var after := s.Forward(sender, from, p, now);
    match RouteOf(s.table, sender, p)
    case Drop(_) => NothingSaid(s, after, l);
    case Broadcast =>
      if s.gate.Allow(sender, p, now).1 {
        CastSaid(s, after, s.Seats() - (if from.Some? then {from.value} else {}), p, l);
      } else {
        NothingSaid(s, after, l);
      }
    case Unicast(to) =>
      if to != s.own && to in s.seated {
        CastSaid(s, after, {s.seated[to]}, p, l);
      } else {
        NothingSaid(s, after, l);
      }
  }

  lemma {:induction false} ToldSaid(s: State, link: LinkId, identity: Identity, m: Decoded<LanMessage>, now: nat,
                                    l: LinkId)
    requires s.Valid() && s.SeatedOn(identity, link)
    ensures Said(s, s.Told(link, identity, m, now), l)
  {
    hide Table.Valid, RoomSubnet.Valid, SeatsInTable, OnlySeated, Shows, NamesOf, AddressOf, Gates.Gate.Allow,
         State.Greeted, State.Forward, State.NamesPublished, State.Say;
    match m
    case Ok(Hello(_)) => GreetedSaid(s, s, link, l);
    case Ok(Packet(p)) => ForwardSaid(s, identity, Some(link), p, now, l);
    case Ok(Name(name)) => NamesPublishedSaid(s, s.(names := s.names[identity := name]), l);
    case Ok(Chat(text)) => SaySaid(s, s.(chatGate := s.chatGate.Allow(identity, [], now).0), identity, text, l);
    case _ =>
  }

  lemma NamesPublishedSaid(s: State, before: State, l: LinkId)
    requires before.log == s.log && (l in before.Seats() ==> l in s.links)
    ensures Said(s, before.NamesPublished(), l)
  {
    hide NamesOf;
    NamesPublishedLog(before, l);
    SaidAll(s, before, before.NamesPublished(), l, if l in before.Seats() then [before.NamesNow()] else []);
  }

  lemma SaySaid(s: State, before: State, from: Identity, text: seq<Byte>, l: LinkId)
    requires before.log == s.log && (l in before.Seats() ==> l in s.links)
    ensures Said(s, before.Say(from, text), l)
  {
    SaidLog(before, from, text, l);
    SaidAll(s, before, before.Say(from, text), l, if l in before.Seats() then [ChatFrom(from, text)] else []);
  }

  lemma {:induction false} StepSaid(s: State, e: Event, l: LinkId)
    requires s.Valid() && s.Admissible(e)
    ensures Said(s, s.OnEvent(e), l)
  {
    hide Table.Valid, RoomSubnet.Valid, SeatsInTable, OnlySeated, Shows, NamesOf, AddressOf, Decode,
         State.Seat, State.Closed, State.Forward, State.Told, State.NamesPublished, State.Published, State.Say;
    match e
    case PeerIdentified(link, identity) => SeatSaid(s, link, identity, l);
    case LinkClosed(link) => CloseSaid(s, link, l);
    case LinkData(link, bytes, now) =>
      if link in s.links && s.links[link].Some? && s.SeatedOn(s.links[link].value, link) {
        ToldSaid(s, link, s.links[link].value, Decode(bytes), now, l);
      }
    case FromAdapter(p, now) => ForwardSaid(s, s.own, None, p, now, l);
    case SetName(name) => NamesPublishedSaid(s, s.(names := s.names[s.own := name]), l);
    case SayLine(text) => SaySaid(s, s, s.own, text, l);
    case Refresh => PublishedSaid(s, s, l);
    case _ =>
  }

  /** Everyone a host tells its table to is in it. */
  lemma SeatIsInTable(s: State, l: LinkId)
    requires s.Valid() && l in s.Seats()
    ensures l in s.links && s.links[l].Some? && InTable(s.table.members, s.links[l].value)
  {
    hide Table.Valid, RoomSubnet.Valid, OnlySeated, Shows, NamesOf, AddressOf;
  }
}
