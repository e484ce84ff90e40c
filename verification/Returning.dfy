/**
 Coming back to a room (`lan_session.rs`, `lan.rs`), as its host lives it: a member whose old address
 is free may be given another one.
 */
module Returning {
  import opened Wire
  import opened Subnet
  import opened Members
  import opened Text
  import opened Host
  import opened HostLaws

  // ---------------------------------------------------------------- runs, one after the other

  /** A run the environment allows, and where it leads. */
  ghost predicate Leads(s: State, es: seq<Event>, after: State) {
    s.Valid() && AllAdmissible(s, es) && HostLaws.Run(s, es) == after && after.Valid()
  }

  lemma {:induction false} LeadsThen(s: State, xs: seq<Event>, t: State, ys: seq<Event>, u: State)
    requires Leads(s, xs, t) && Leads(t, ys, u)
    ensures Leads(s, xs + ys, u)
    decreases |xs|
  {
    hide State.Valid, State.OnEvent, State.Admissible;
    ValidLimits(s);
    if xs == [] {
      assert xs + ys == ys;
    } else {
      assert (xs + ys)[0] == xs[0] && (xs + ys)[1..] == xs[1..] + ys;
      StepValid(s, xs[0]);
      LeadsThen(s.OnEvent(xs[0]), xs[1..], t, ys, u);
    }
  }

  lemma ValidLimits(s: State)
    requires s.Valid()
    ensures s.table.subnet.Valid() && s.gate.limit.Valid() && s.chatGate.limit.Valid()
  {
  }

  lemma LeadsOne(s: State, e: Event, after: State)
    requires s.Valid() && s.Admissible(e)
    requires s.table.subnet.Valid() && s.gate.limit.Valid() && s.chatGate.limit.Valid() && s.OnEvent(e) == after
    ensures Leads(s, [e], after)
  {
    hide State.Valid, State.OnEvent, State.Admissible;
    StepValid(s, e);
    ValidLimits(after);
    var none: seq<Event> := [e][1..];
    assert none == [] && AllAdmissible(after, none) && HostLaws.Run(after, none) == after;
  }

  // ---------------------------------------------------------------- coming and going

  /** A new link proves who is on it. */
  function Joins(link: LinkId, identity: Identity): seq<Event> {
    [LinkEstablished(link)] + [PeerIdentified(link, identity)]
  }

  predicate Newcomer(s: State, link: LinkId, identity: Identity) {
    && link !in s.links && Seatable(s, identity) && AddressOf(s.table.members, identity).None?
    && |s.table.members| < s.table.capacity
  }

  /** The host that seats are kept by, with these seats. */
  predicate Seating(s: State, like: State, table: Table, links: map<LinkId, Option<Identity>>,
                    seated: map<Identity, LinkId>)
  {
    s.own == like.own && s.allowlist == like.allowlist && s.table == table && s.links == links && s.seated == seated
  }

  ghost predicate JoinLeads(s: State, link: LinkId, identity: Identity, after: State)
    requires s.table.subnet.Valid()
  {
    && Leads(s, Joins(link, identity), after)
    && Seating(after, s, s.table.Admitted(identity).0, s.links[link := Some(identity)], s.seated[identity := link])
  }

  lemma {:induction false} Joined(s: State, link: LinkId, identity: Identity) returns (after: State)
    requires s.Valid() && Newcomer(s, link, identity)
    ensures JoinLeads(s, link, identity, after)
  {
    hide State.OnEvent, Table.Admitted, Table.Valid, AddressOf, HostLaws.Run, AllAdmissible, NamesOf, Leads;
    var linked := s.(links := s.links[link := None]);
    Established(s, link);
    after := linked.Seat(link, identity);
    SeatedNew(linked, link, identity);
    Identified(linked, link, identity);
    LeadsThen(s, [LinkEstablished(link)], linked, [PeerIdentified(link, identity)], after);
  }

  lemma Established(s: State, link: LinkId)
    requires s.Valid() && link !in s.links
    ensures Leads(s, [LinkEstablished(link)], s.(links := s.links[link := None]))
    ensures s.(links := s.links[link := None]).Valid()
  {
    hide Table.Valid, AddressOf, NamesOf, Leads;
    var linked := s.(links := s.links[link := None]);
    assert s.OnEvent(LinkEstablished(link)) == linked;
    LeadsOne(s, LinkEstablished(link), linked);
    StepValid(s, LinkEstablished(link));
  }

  lemma Identified(s: State, link: LinkId, identity: Identity)
    requires s.Valid() && link in s.links && s.links[link].None?
    ensures Leads(s, [PeerIdentified(link, identity)], s.Seat(link, identity))
  {
    hide Table.Valid, AddressOf, NamesOf, Leads, State.Seat;
    LeadsOne(s, PeerIdentified(link, identity), s.Seat(link, identity));
  }

  lemma {:induction false} SeatedNew(s: State, link: LinkId, identity: Identity)
    requires s.Valid() && link in s.links && s.links[link].None? && Seatable(s, identity)
    requires AddressOf(s.table.members, identity).None? && |s.table.members| < s.table.capacity
    ensures Seating(s.Seat(link, identity), s, s.table.Admitted(identity).0,
                    s.links[link := Some(identity)], s.seated[identity := link])
  {
    hide Table.Valid, Table.Admitted, RoomSubnet.Valid, NamesOf, SeatsProved, SeatsInTable, OnlySeated, Shows,
         State.Published, State.Greeted;
    SeatedNext(s.table, identity);
    var seating := s.(links := s.links[link := Some(identity)], table := s.table.Admitted(identity).0,
                      seated := s.seated[identity := link]);
    PublishedTouches(seating);
    GreetedTouches(seating, link);
  }

  /** A seat's link closing. */
  lemma {:induction false} Left(s: State, link: LinkId, identity: Identity)
    requires s.Valid() && s.SeatedOn(identity, link)
    ensures Leads(s, [LinkClosed(link)], s.Closed(link))
    ensures Seating(s.Closed(link), s, s.table.Removed(identity), s.links - {link}, s.seated - {identity})
  {
    hide Table.Valid, AddressOf, NamesOf, Leads, State.Closed, Table.Removed;
    LeadsOne(s, LinkClosed(link), s.Closed(link));
    Unseated(s, link, identity);
  }

  lemma Unseated(s: State, link: LinkId, identity: Identity)
    requires SeatsProved(s.links, s.seated) && s.SeatedOn(identity, link)
    ensures Seating(s.Closed(link), s, s.table.Removed(identity), s.links - {link}, s.seated - {identity})
  {
    hide Table.Removed, NamesOf, State.Published;
    var left := s.(links := s.links - {link}, seated := s.seated - {identity}, names := s.names - {identity},
                   gate := s.gate.Forget(identity), chatGate := s.chatGate.Forget(identity),
                   table := s.table.Removed(identity));
    PublishedTouches(left);
  }

  /** `a` and `b` would both rather have one address, which is free. */
  predicate Rivals(t: Table, a: Identity, b: Identity)
    requires t.subnet.Valid()
  {
    && a != b && AddressOf(t.members, a).None? && AddressOf(t.members, b).None?
    && Try(t.subnet, a, 0) == Try(t.subnet, b, 0) && Free(t.subnet, t.members, Try(t.subnet, a, 0))
  }

  /** Two rivals the host allows, two seats for them, and links to come. */
  ghost predicate MayReturn(s: State, a: Identity, b: Identity, l: LinkId) {
    && s.table.subnet.Valid() && s.Valid() && Rivals(s.table, a, b) && |s.table.members| + 2 <= s.table.capacity
    && Seatable(s, a) && Seatable(s, b) && l !in s.links && l + 1 !in s.links && l + 2 !in s.links
  }

  /** The table once two have been let in. */
  function Together(t: Table, b: Identity, a: Identity): Table
    requires t.subnet.Valid()
  {
    AdmitKeepsSubnet(t, b);
    t.Admitted(b).0.Admitted(a).0
  }

  predicate BothSeated(s: State, a: Identity, b: Identity, l: LinkId, after: State)
    requires s.table.subnet.Valid()
  {
    Seating(after, s, Together(s.table, b, a), s.links[l := Some(b)][l + 1 := Some(a)], s.seated[b := l][a := l + 1])
  }

  lemma {:induction false} BothJoin(s: State, a: Identity, b: Identity, l: LinkId) returns (after: State)
    requires MayReturn(s, a, b, l)
    ensures Leads(s, Joins(l, b) + Joins(l + 1, a), after)
    ensures BothSeated(s, a, b, l, after)
  {
    hide Table.Admitted, AllApart, Leads, Free, AddressOf;
    FirstChoiceFree(s.table, b);
    NoAddressBeside(s.table.members, Member(b, Try(s.table.subnet, b, 0)), a);
    var one := Joined(s, l, b);
    ValidWhere(s, Joins(l, b), one);
    after := Joined(one, l + 1, a);
    LeadsThen(s, Joins(l, b), one, Joins(l + 1, a), after);
  }

  lemma ValidWhere(s: State, es: seq<Event>, after: State)
    requires Leads(s, es, after)
    ensures after.Valid()
  {
  }

  lemma {:induction false} BothGo(s: State, a: Identity, b: Identity, l: LinkId) returns (after: State)
    requires s.Valid() && a != b && s.SeatedOn(b, l) && s.SeatedOn(a, l + 1)
    ensures Leads(s, [LinkClosed(l)] + [LinkClosed(l + 1)], after)
    ensures Seating(after, s, s.table.Removed(b).Removed(a), s.links - {l} - {l + 1}, s.seated - {b} - {a})
  {
    hide State.Valid, Table.Removed, Leads, State.Closed;
    Left(s, l, b);
    var one := s.Closed(l);
    ValidWhere(s, [LinkClosed(l)], one);
    Left(one, l + 1, a);
    after := one.Closed(l + 1);
    LeadsThen(s, [LinkClosed(l)], one, [LinkClosed(l + 1)], after);
  }

  /**
   In any room with two seats left: `b` and `a` join, `b` leaves, `a` leaves and comes back.  It is
   seated at the address `b` had, and the one it had itself is free.
   */
  lemma {:induction false} ReturnsElsewhere(s: State, a: Identity, b: Identity, l: LinkId)
      returns (before: State, after: State)
    requires MayReturn(s, a, b, l)
    ensures Leads(s, Joins(l, b) + Joins(l + 1, a), before)
    ensures Leads(before, [LinkClosed(l)] + [LinkClosed(l + 1)] + Joins(l + 2, a), after)
    ensures before.SeatedOn(a, l + 1) && after.SeatedOn(a, l + 2) && after.table.subnet == s.table.subnet
    ensures var x := Try(s.table.subnet, a, 0);
      && AddressOf(before.table.members, b) == Some(x) && AddressOf(before.table.members, a).Some?
      && var was := AddressOf(before.table.members, a).value;
         && was != x && AddressOf(after.table.members, a) == Some(x)
         && Free(s.table.subnet, after.table.members, was)
  {
    hide State.Valid, Table.Admitted, Table.Removed, AllApart, Leads, Free, AddressOf;
    ValidTable(s);
    before := BothJoin(s, a, b, l);
    ValidWhere(s, Joins(l, b) + Joins(l + 1, a), before);
    TwoCome(s.table, a, b);
    var x, was := Try(s.table.subnet, a, 0), AddressOf(before.table.members, a).value;
    LookupsAgree(before.table, Member(b, x));
    BothLeave(before.table, s.table.members, a, b, x, was);
    var gone := BothGo(before, a, b, l);
    ValidWhere(before, [LinkClosed(l)] + [LinkClosed(l + 1)], gone);
    after := Joined(gone, l + 2, a);
    LeadsThen(before, [LinkClosed(l)] + [LinkClosed(l + 1)], gone, Joins(l + 2, a), after);
    FirstChoiceFree(gone.table, a);
    FreeBeside(s.table.subnet, s.table.members, Member(a, x), was);
  }

  lemma ValidTable(s: State)
    requires s.Valid()
    ensures s.table.Valid()
  {
  }

  /** And so from the opening of any room for three or more, whoever hosts it at another address. */
  lemma {:induction false} OpeningReturns(own: Identity, subnet: RoomSubnet, capacity: nat, name: Option<Text>,
                                          a: Identity, b: Identity) returns (before: State, after: State)
    requires subnet.Valid() && capacity >= 3 && a != b && a != own && b != own
    requires Try(subnet, a, 0) == Try(subnet, b, 0) && subnet.IsAssignable(Try(subnet, a, 0))
    requires AddressOf(Opening(own, [], subnet, capacity, name).table.members, own) != Some(Try(subnet, a, 0))
    ensures var s := Opening(own, [], subnet, capacity, name);
      && Leads(s, Joins(0, b) + Joins(1, a), before)
      && Leads(before, [LinkClosed(0)] + [LinkClosed(1)] + Joins(2, a), after)
    ensures before.SeatedOn(a, 1) && after.SeatedOn(a, 2) && after.table.subnet == subnet
    ensures AddressOf(before.table.members, a).Some? && AddressOf(after.table.members, a).Some?
    ensures var was := AddressOf(before.table.members, a).value;
      AddressOf(after.table.members, a) != Some(was) && Free(subnet, after.table.members, was)
  {
    hide State.Valid, Leads, Opening, Rivals, Seatable, Free, AddressOf;
    var s := Opening(own, [], subnet, capacity, name);
    OpeningValid(own, [], subnet, capacity, name);
    OpeningRivals(own, subnet, capacity, name, a, b);
    before, after := ReturnsElsewhere(s, a, b, 0);
  }

  lemma {:induction false} OpeningRivals(own: Identity, subnet: RoomSubnet, capacity: nat, name: Option<Text>,
                                         a: Identity, b: Identity)
    requires subnet.Valid() && capacity >= 3 && a != b && a != own && b != own
    requires Try(subnet, a, 0) == Try(subnet, b, 0) && subnet.IsAssignable(Try(subnet, a, 0))
    requires AddressOf(Opening(own, [], subnet, capacity, name).table.members, own) != Some(Try(subnet, a, 0))
    ensures var s := Opening(own, [], subnet, capacity, name);
      && s.table.subnet == subnet && Rivals(s.table, a, b) && |s.table.members| + 2 <= s.table.capacity
      && Seatable(s, a) && Seatable(s, b) && s.links == map[]
  {
    hide Table.Admitted, Try, FirstChoice, RoomSubnet.IsAssignable;
    var empty := NewTable(subnet, capacity);
    SeatedNext(empty, own);
    var m := Member(own, empty.Admitted(own).1.address);
    assert empty.Admitted(own).0.members == [m];
  }
}
