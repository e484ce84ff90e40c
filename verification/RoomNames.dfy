/** How a member's name reaches the room (`lan_session.rs`): it says it until the host's list gives it. */
module RoomNames {
  import opened Wire
  import opened Subnet
  import opened Members
  import opened Text
  import opened Messages
  import opened RoomView
  import Host
  import HostLaws
  import MemberSide

  /** What the list that arrives gives one in the table: the name it gave, if that can be sent. */
  lemma {:induction false} NameInSent(members: seq<Member>, names: map<Identity, Text>, who: Identity)
    ensures NameIn(Kept(Host.NamesOf(members, names)), who)
         == if Host.InTable(members, who) && who in names && ValidName(names[who]) then Some(names[who]) else None
    ensures |Kept(Host.NamesOf(members, names))| <= |members|
  {
    hide ValidName;
    if members != [] {
      var m, rest := members[0], Host.NamesOf(members[1..], names);
      NameInSent(members[1..], names, who);
      if m.identity in names {
        var n := Named(m.identity, names[m.identity]);
        assert ([n] + rest)[0] == n && ([n] + rest)[1..] == rest;
        if ValidName(n.name) {
          var kept := [n] + Kept(rest);
          assert kept[0] == n && kept[1..] == Kept(rest);
        } else {
          assert [] + Kept(rest) == Kept(rest);
        }
      } else {
        assert [] + rest == rest;
      }
    }
  }

  /** A member that is seated, on this link, and wants to be called `name`. */
  predicate Wants(m: MemberSide.State, link: Host.LinkId, name: Text) {
    && m.link == Some(link) && m.view.subnet.Valid() && m.view.address.Some?
    && m.name == Some(name) && ValidName(name)
  }

  /** Given the host's list, a member says its name again exactly if the host has another for it, or none. */
  lemma {:induction false} AskedUntilHeard(h: Host.State, m: MemberSide.State, link: Host.LinkId, name: Text)
    requires h.Valid() && h.SeatedOn(m.view.own, link) && Wants(m, link, name)
    ensures var after := m.OnEvent(MemberSide.LinkData(link, Encode(h.NamesNow())));
      && after.link == m.link && after.name == m.name
      && after.view.address == m.view.address && after.view.own == m.view.own
      && if m.view.own in h.names && h.names[m.view.own] == name
         then after.sent == m.sent && after.view.NameOf(m.view.own) == Some(name)
         else after.sent == m.sent + [(link, Name(name))]
  {
    hide ValidName, RoomSubnet.Valid, Table.Valid, Host.SeatsProved, Host.OnlySeated, Host.Shows, Kept, Decode,
         NamesBytes, Host.NamesOf, NameIn, AddressOf;
    var members, own := h.table.members, m.view.own;
    HostLaws.SeatedIsIn(h, own);
    NamesArrive(Host.NamesOf(members, h.names));
    NameInSent(members, h.names, own);
    TableFits(h);
    var list := First32(Kept(Host.NamesOf(members, h.names)));
    assert Encode(h.NamesNow()) == NamesBytes(Host.NamesOf(members, h.names));
    assert m.OnEvent(MemberSide.LinkData(link, Encode(h.NamesNow()))) == m.NamesTaken(list);
    MemberSide.NameRepeats(m, list);
  }

  lemma TableFits(h: Host.State)
    requires h.Valid()
    ensures |h.table.members| <= MAX_MEMBERS
  {
    hide RoomSubnet.Valid, Host.SeatsProved, Host.SeatsInTable, Host.OnlySeated, Host.Shows, Host.NamesOf;
  }

  /**
   So a name said is heard for good: once it reaches the host from the seated link, the host has
   it for that member, and the next list to reach the member gives it and draws nothing more.
   */
  lemma {:induction false} NameSettles(h: Host.State, m: MemberSide.State, link: Host.LinkId, name: Text, now: nat)
    requires h.Valid() && h.SeatedOn(m.view.own, link) && Wants(m, link, name)
    ensures var heard := h.Data(link, Encode(Name(name)), now);
      && heard.Valid() && heard.names == h.names[m.view.own := name]
      && var after := m.OnEvent(MemberSide.LinkData(link, Encode(heard.NamesNow())));
         after.sent == m.sent && after.view.NameOf(m.view.own) == Some(name)
  {
    hide ValidName, RoomSubnet.Valid, Table.Valid, Host.State.Data, Decode, Encode, Host.NamesOf, NameIn,
         Host.SeatsProved, Host.SeatsInTable, Host.OnlySeated, Host.Shows,
         MemberSide.State.OnEvent;
    RoundTrip(Name(name));
    HostLaws.NameTaken(h, link, m.view.own, Encode(Name(name)), now);
    StillSeated(h, m.view.own, link, Encode(Name(name)), now);
    AskedUntilHeard(h.Data(link, Encode(Name(name)), now), m, link, name);
  }

  lemma StillSeated(h: Host.State, who: Identity, link: Host.LinkId, bytes: seq<Byte>, now: nat)
    requires h.Valid() && h.SeatedOn(who, link)
    ensures h.Data(link, bytes, now).Valid() && h.Data(link, bytes, now).SeatedOn(who, link)
  {
    hide RoomSubnet.Valid, Table.Valid, Host.State.Data, Decode, Host.NamesOf;
    HostLaws.DataKeepsSeats(h, link, bytes, now);
  }
}
