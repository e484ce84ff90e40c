/** The messages of the room protocol and their wire form (`lan.rs`). */
module Messages {
  import opened Wire
  import opened Subnet
  import opened Members
  import opened Text

  const MTU := 1400

  datatype LanMessage =
    | Hello(version: Byte)
    | Members(epoch: U32, subnet: RoomSubnet, members: seq<Member>)
    | Turned(reason: Refusal)
    | Packet(packet: seq<Byte>)
    | Name(name: Text)
    | Names(names: seq<Named>)
    | Chat(text: Text)
    | ChatFrom(from: Identity, text: Text)
    | Unknown(kind: Byte)

  datatype Named = Named(identity: Identity, name: Text)

  datatype DecodeError = Empty | Truncated | TooManyMembers(count: nat) | BadSubnet | PacketTooLarge(size: nat)
                       | BadText

  datatype Decoded<+T> = Ok(value: T) | Err(error: DecodeError)

  // ---------------------------------------------------------------- encoding

  function RefusalByte(r: Refusal): Byte {
    match r
    case Full => 1
    case NotAllowed => 2
    case NoAddress => 3
    case Other(code) => code
  }

  function RefusalOf(b: Byte): Refusal {
    if b == 1 then Full else if b == 2 then NotAllowed else if b == 3 then NoAddress else Other(b)
  }

  function Bytes32(v: U32): (s: seq<Byte>)
    ensures |s| == 4
  {
    FromNum(v).Octets()
  }

  function Word32(s: seq<Byte>): U32
    requires |s| >= 4
  {
    Num(AddrAt(s, 0))
  }

  function MemberEntry(m: Member): (s: seq<Byte>)
    ensures |s| == 20
  {
    m.identity + m.address.Octets()
  }

  function MemberEntries(members: seq<Member>): (s: seq<Byte>)
    ensures |s| == 20 * |members|
  {
    if members == [] then [] else MemberEntry(members[0]) + MemberEntries(members[1..])
  }

  predicate AllSendable(names: seq<Named>) { forall i :: 0 <= i < |names| ==> ValidName(names[i].name) }

  /** The names that are sent: valid ones, the first MAX_MEMBERS of them. */
  function Kept(names: seq<Named>): (r: seq<Named>)
    ensures AllSendable(r)
    ensures |r| <= |names|
  {
    if names == [] then [] else (if ValidName(names[0].name) then [names[0]] else []) + Kept(names[1..])
  }

  function First32<T>(s: seq<T>): (r: seq<T>)
    ensures |r| <= MAX_MEMBERS && r <= s
  {
    if |s| <= MAX_MEMBERS then s else s[..MAX_MEMBERS]
  }

  function NameEntry(n: Named): seq<Byte>
    requires |n.name| < 256
  {
    n.identity + [|n.name|] + n.name
  }

  function NameEntries(names: seq<Named>): seq<Byte>
    requires AllSendable(names)
  {
    if names == [] then [] else NameEntry(names[0]) + NameEntries(names[1..])
  }

  /** A prefix length as the byte it is on the wire; every valid subnet's fits. */
  function PrefixByte(subnet: RoomSubnet): Byte { if subnet.prefixLen < 256 then subnet.prefixLen else 255 }

  function MembersBytes(epoch: U32, subnet: RoomSubnet, members: seq<Member>): (s: seq<Byte>) {
    var sent := First32(members);
    [2] + Bytes32(epoch) + subnet.prefix.Octets() + [PrefixByte(subnet), |sent|] + MemberEntries(sent)
  }

  function NamesBytes(names: seq<Named>): (s: seq<Byte>) { [6] + NamesBody(First32(Kept(names))) }

  function NamesBody(sent: seq<Named>): seq<Byte>
    requires |sent| <= MAX_MEMBERS && AllSendable(sent)
  {
    [|sent|] + NameEntries(sent)
  }

  function Encode(m: LanMessage): (s: seq<Byte>)
    ensures |s| > 0
  {
    match m
    case Hello(version) => [1, version]
    case Members(epoch, subnet, members) => MembersBytes(epoch, subnet, members)
    case Turned(reason) => [3, RefusalByte(reason)]
    case Packet(packet) => [4] + packet
    case Name(name) => [5] + name
    case Names(names) => NamesBytes(names)
    case Chat(text) => [7] + text
    case ChatFrom(from, text) => [8] + from + text
    case Unknown(kind) => [kind]
  }

  // ---------------------------------------------------------------- decoding

  function ReadMember(b: seq<Byte>): Member
    requires |b| >= 20
  {
    Member(b[..16], AddrAt(b, 16))
  }

  function ReadMembers(b: seq<Byte>, count: nat): (r: seq<Member>)
    requires |b| >= 20 * count
    ensures |r| == count
    decreases count
  {
    if count == 0 then [] else [ReadMember(b)] + ReadMembers(b[20..], count - 1)
  }

  function ReadNames(b: seq<Byte>, count: nat): (r: Decoded<seq<Named>>)
    ensures r.Ok? ==> |r.value| == count && AllSendable(r.value)
    decreases count
  {
    if count == 0 then Ok([])
    else if |b| < 17 || |b| < 17 + b[16] as int then Err(Truncated)
    else
      var name, rest := b[17..17 + b[16] as int], b[17 + b[16] as int..];
      if !ValidName(name) then Err(BadText)
      else Onto([Named(b[..16], name)], ReadNames(rest, count - 1))
  }

  function Onto(names: seq<Named>, later: Decoded<seq<Named>>): Decoded<seq<Named>> {
    if later.Ok? then Ok(names + later.value) else later
  }

  function DecodeMembers(rest: seq<Byte>): Decoded<LanMessage> {
    if |rest| < 10 then Err(Truncated)
    else
      match New(AddrAt(rest, 4), rest[8])
      case None => Err(BadSubnet)
      case Some(subnet) =>
        var count := rest[9];
        if count > MAX_MEMBERS then Err(TooManyMembers(count))
        else if |rest| - 10 < 20 * count then Err(Truncated)
        else Ok(Members(Word32(rest), subnet, ReadMembers(rest[10..], count)))
  }

  function DecodeNames(rest: seq<Byte>): Decoded<LanMessage> {
    if rest == [] then Err(Truncated)
    else if rest[0] > MAX_MEMBERS then Err(TooManyMembers(rest[0]))
    else
      match ReadNames(rest[1..], rest[0])
      case Err(e) => Err(e)
      case Ok(names) => Ok(Names(names))
  }

  function Decode(b: seq<Byte>): Decoded<LanMessage> {
    if b == [] then Err(Empty)
    else
      var kind, rest := b[0], b[1..];
      if kind == 1 then (if rest == [] then Err(Truncated) else Ok(Hello(rest[0])))
      else if kind == 2 then DecodeMembers(rest)
      else if kind == 3 then (if rest == [] then Err(Truncated) else Ok(Turned(RefusalOf(rest[0]))))
      else if kind == 4 then (if |rest| > MTU then Err(PacketTooLarge(|rest|)) else Ok(Packet(rest)))
      else if kind == 5 then (if ValidName(rest) then Ok(Name(rest)) else Err(BadText))
      else if kind == 6 then DecodeNames(rest)
      else if kind == 7 then (if ValidChat(rest) then Ok(Chat(rest)) else Err(BadText))
      else if kind == 8 then
        (if |rest| < 16 then Err(Truncated)
         else if ValidChat(rest[16..]) then Ok(ChatFrom(rest[..16], rest[16..])) else Err(BadText))
      else Ok(Unknown(kind))
  }

  // ---------------------------------------------------------------- the loops

  method EncodeMembers(epoch: U32, subnet: RoomSubnet, members: seq<Member>) returns (buf: seq<Byte>)
    ensures buf == MembersBytes(epoch, subnet, members)
  {
    var sent := First32(members);
    var head := [2] + Bytes32(epoch) + subnet.prefix.Octets() + [PrefixByte(subnet), |sent|];
    buf := head;
    for i := 0 to |sent|
      invariant buf + MemberEntries(sent[i..]) == head + MemberEntries(sent)
    {
      assert sent[i..][0] == sent[i] && sent[i..][1..] == sent[i + 1..];
      buf := buf + sent[i].identity + sent[i].address.Octets();
    }
    assert sent[|sent|..] == [];
  }

  method EncodeNames(names: seq<Named>) returns (buf: seq<Byte>)
    ensures buf == NamesBytes(names)
  {
    var sent := First32(Kept(names));
    var entries: seq<Byte> := [];
    for i := 0 to |sent|
      invariant entries + NameEntries(sent[i..]) == NameEntries(sent)
    {
      NextEntry(sent, i, entries);
      entries := entries + (sent[i].identity + [|sent[i].name|] + sent[i].name);
    }
    assert sent[|sent|..] == [] && entries + [] == entries;
    buf := [6] + ([|sent|] + entries);
  }

  lemma NextEntry(sent: seq<Named>, i: nat, done: seq<Byte>)
    requires i < |sent| && AllSendable(sent)
    ensures done + NameEntries(sent[i..]) == done + NameEntry(sent[i]) + NameEntries(sent[i + 1..])
  {
    assert sent[i..][0] == sent[i] && sent[i..][1..] == sent[i + 1..];
  }

  lemma OntoOnto(a: seq<Named>, b: seq<Named>, later: Decoded<seq<Named>>)
    ensures Onto([], later) == later
    ensures Onto(a, Onto(b, later)) == Onto(a + b, later)
    ensures Onto(a, Ok([])) == Ok(a)
  {
    assert a + [] == a;
    if later.Ok? {
      assert [] + later.value == later.value;
      assert a + (b + later.value) == (a + b) + later.value;
    }
  }

  method DecodeNamesLoop(rest: seq<Byte>) returns (r: Decoded<LanMessage>)
    ensures r == DecodeNames(rest)
  {
    if rest == [] {
      return Err(Truncated);
    }
    var count, entries := rest[0], rest[1..];
    if count > MAX_MEMBERS {
      return Err(TooManyMembers(count));
    }
    hide ValidName;
    var names: seq<Named> := [];
    OntoOnto(names, names, ReadNames(entries, count));
    var i := 0;
    while i < count
      invariant i <= count
      invariant ReadNames(rest[1..], count) == Onto(names, ReadNames(entries, count - i))
    {
      if |entries| < 17 || |entries| < 17 + entries[16] as int {
        return Err(Truncated);
      }
      var end := 17 + entries[16] as int;
      var name := entries[17..end];
      if !ValidName(name) {
        return Err(BadText);
      }
      OntoOnto(names, [Named(entries[..16], name)], ReadNames(entries[end..], count - i - 1));
      names := names + [Named(entries[..16], name)];
      entries := entries[end..];
      i := i + 1;
    }
    OntoOnto(names, [], Ok([]));
    r := Ok(Names(names));
  }

  // ---------------------------------------------------------------- round trips

  /** What a message must meet to arrive as it was sent. */
  predicate Sendable(m: LanMessage) {
    match m
    case Members(_, subnet, members) => subnet.Valid() && |members| <= MAX_MEMBERS
    case Turned(reason) => reason.Other? ==> reason.code !in {1, 2, 3}
    case Packet(packet) => |packet| <= MTU
    case Name(name) => ValidName(name)
    case Names(names) => |names| <= MAX_MEMBERS && AllSendable(names)
    case Chat(text) => ValidChat(text)
    case ChatFrom(_, text) => ValidChat(text)
    case Unknown(kind) => !(1 <= kind <= 8)
    case Hello(_) => true
  }

  lemma {:induction false} MembersRoundTrip(members: seq<Member>)
    ensures ReadMembers(MemberEntries(members), |members|) == members
  {
    if members != [] {
      var s, m := MemberEntries(members), members[0];
      assert s[..16] == m.identity;
      assert AddrAt(s, 16) == m.address;
      assert s[20..] == MemberEntries(members[1..]);
      MembersRoundTrip(members[1..]);
      assert members == [m] + members[1..];
    }
  }

  lemma {:induction false} NamesRoundTrip(names: seq<Named>)
    requires AllSendable(names)
    ensures ReadNames(NameEntries(names), |names|) == Ok(names)
  {
    if names != [] {
      var s, n := NameEntries(names), names[0];
      assert s[..16] == n.identity && s[16] == |n.name| && s[17..17 + |n.name|] == n.name;
      assert s[17 + |n.name|..] == NameEntries(names[1..]);
      NamesRoundTrip(names[1..]);
      assert names == [n] + names[1..];
    }
  }

  lemma {:induction false} KeptAll(names: seq<Named>)
    ensures Kept(names) == names <==> AllSendable(names)
  {
    if names != [] {
      KeptAll(names[1..]);
      assert names == [names[0]] + names[1..];
    }
  }

  lemma {:induction false} SubnetRoundTrip(subnet: RoomSubnet)
    requires subnet.prefixLen < 256
    ensures New(subnet.prefix, subnet.prefixLen) == Some(subnet) <==> subnet.Valid()
  {
    if subnet.Valid() {
      var size := HostSize(subnet.prefixLen);
      Masked(Num(subnet.prefix), 0, size);
      NumInjective(subnet.prefix, FromNum(Num(subnet.prefix)));
    }
  }

  lemma MembersMessage(epoch: U32, subnet: RoomSubnet, members: seq<Member>)
    ensures Decode(Encode(Members(epoch, subnet, members))) == Ok(Members(epoch, subnet, members))
       <==> subnet.Valid() && |members| <= MAX_MEMBERS
  {
    hide MemberEntries, ReadMembers;
    var sent := First32(members);
    var rest := Encode(Members(epoch, subnet, members))[1..];
    MembersRoundTrip(sent);
    NumRoundTrip(epoch);
    assert AddrAt(rest, 0) == FromNum(epoch);
    assert AddrAt(rest, 4) == subnet.prefix && rest[8] == PrefixByte(subnet) && rest[9] == |sent|;
    assert rest[10..] == MemberEntries(sent);
    if subnet.prefixLen < 256 {
      SubnetRoundTrip(subnet);
    }
  }

  lemma NamesMessage(names: seq<Named>)
    ensures Decode(NamesBytes(names)) == Ok(Names(names))
       <==> |names| <= MAX_MEMBERS && AllSendable(names)
  {
    NamesArrive(names);
    SentIs(names);
  }

  lemma {:induction false} SentIs(names: seq<Named>)
    ensures First32(Kept(names)) == names <==> |names| <= MAX_MEMBERS && AllSendable(names)
  {
    KeptAll(names);
  }

  lemma {:induction false} NamesArrive(names: seq<Named>)
    ensures Decode(NamesBytes(names)) == Ok(Names(First32(Kept(names))))
  {
    var sent := First32(Kept(names));
    NamesSent(sent);
    OfKindSix(NamesBody(sent));
  }

  lemma OfKindSix(rest: seq<Byte>)
    ensures Decode([6] + rest) == DecodeNames(rest)
  {
    assert ([6] + rest)[1..] == rest;
  }

  lemma NamesSent(sent: seq<Named>)
    requires |sent| <= MAX_MEMBERS && AllSendable(sent)
    ensures DecodeNames(NamesBody(sent)) == Ok(Names(sent))
  {
    NamesRoundTrip(sent);
    assert NamesBody(sent)[1..] == NameEntries(sent);
  }

  /** A message arrives as it was sent exactly when it is one its sender's limits allow. */
  lemma {:induction false} RoundTrip(m: LanMessage)
    ensures Decode(Encode(m)) == Ok(m) <==> Sendable(m)
  {
    var b := Encode(m);
    match m
    case Members(epoch, subnet, members) => MembersMessage(epoch, subnet, members);
    case Names(names) => NamesMessage(names);
    case Packet(packet) => assert b[1..] == packet;
    case Name(name) => assert b[1..] == name;
    case Chat(text) => assert b[1..] == text;
    case ChatFrom(from, text) => assert b[1..][..16] == from && b[1..][16..] == text;
    case _ =>
  }

  /** Whatever bytes arrive, what they decode to respects every limit, and arrives so again if sent on. */
  lemma {:induction false} DecodedIsSendable(b: seq<Byte>)
    requires Decode(b).Ok?
    ensures Sendable(Decode(b).value)
  {
  }
}
