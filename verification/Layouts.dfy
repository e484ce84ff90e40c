/**
 Where everything is on the wire (`lan.rs`, `announce.rs`, `server_chat.rs`, `framing.rs`,
 `repo_mesh.rs`, `lan_check.rs`): each format by byte positions, and which bytes are refused, with
 what error.  Round trips alone would allow two ends that are wrong in the same way.
 */
module Layouts {
  import opened Wire
  import opened Ipv4
  import opened Subnet
  import Announce
  import ChatWire
  import Fetch
  import Framing
  import Members
  import Messages
  import RoomCheck
  import Text

  /** The big-endian 32-bit number at `at`. */
  function Long(s: seq<Byte>, at: nat): nat
    requires at + 4 <= |s|
  {
    ((s[at] as int * 256 + s[at + 1] as int) * 256 + s[at + 2] as int) * 256 + s[at + 3] as int
  }

  lemma LongOf(v: U32, rest: seq<Byte>)
    ensures Long(Messages.Bytes32(v) + rest, 0) == v
  {
    var s := Messages.Bytes32(v) + rest;
    assert s[..4] == Messages.Bytes32(v) && forall k :: 0 <= k < 4 ==> s[k] == s[..4][k];
    NumRoundTrip(v);
  }

  // ---------------------------------------------------------------- the room's messages

  /** One byte says what a message is; what follows is its body. */
  lemma RoomKinds(m: Messages.LanMessage)
    ensures var s := Messages.Encode(m);
      match m
      case Hello(version) => s == [0x01, version]
      case Members(_, _, _) => s[0] == 0x02
      case Turned(reason) =>
        s == [0x03, match reason case Full => 1 case NotAllowed => 2 case NoAddress => 3 case Other(code) => code]
      case Packet(packet) => s == [0x04] + packet
      case Name(name) => s == [0x05] + name
      case Names(_) => s[0] == 0x06
      case Chat(text) => s == [0x07] + text
      case ChatFrom(from, text) => s == [0x08] + from + text
      case Unknown(kind) => s == [kind]
  {
  }

  /** A table: epoch, prefix and its length, how many, and twenty bytes for each, in order. */
  lemma MembersLayout(epoch: U32, subnet: RoomSubnet, members: seq<Members.Member>)
    requires |members| <= 32 && subnet.prefixLen < 256
    ensures var s := Messages.Encode(Messages.Members(epoch, subnet, members));
      && |s| == 11 + 20 * |members| && s[0] == 2 && Long(s, 1) == epoch && AddrAt(s, 5) == subnet.prefix
      && s[9] == subnet.prefixLen && s[10] == |members|
      && forall k :: 0 <= k < |members| ==>
           MemberAt(s, 11 + 20 * k, members[k])
  {
    hide MemberAt, Messages.MemberEntries, Messages.Bytes32;
    var head := Messages.Bytes32(epoch) + subnet.prefix.Octets() + [subnet.prefixLen, |members|];
    var entries := Messages.MemberEntries(members);
    var s := Messages.Encode(Messages.Members(epoch, subnet, members));
    assert s == [2] + (head + entries);
    assert forall k :: 0 <= k < 10 ==> s[1 + k] == head[k];
    LongOf(epoch, subnet.prefix.Octets() + [subnet.prefixLen, |members|]);
    assert head == Messages.Bytes32(epoch) + (subnet.prefix.Octets() + [subnet.prefixLen, |members|]);
    assert Long(s, 1) == Long(head, 0);
    assert s[11..] == entries;
    forall k | 0 <= k < |members| ensures MemberAt(s, 11 + 20 * k, members[k]) {
      EntryAt(members, k);
      MemberShifts(s, 11, entries, 20 * k, members[k]);
    }
  }

  predicate MemberAt(s: seq<Byte>, at: nat, m: Members.Member) {
    at + 20 <= |s| && s[at..at + 16] == m.identity && AddrAt(s, at + 16) == m.address
  }

  lemma MemberShifts(s: seq<Byte>, n: nat, entries: seq<Byte>, at: nat, m: Members.Member)
    requires n <= |s| && s[n..] == entries && MemberAt(entries, at, m)
    ensures MemberAt(s, n + at, m)
  {
    SliceOfTail(s, n, at, at + 16);
    assert forall k :: 0 <= k < |entries| ==> s[n + k] == entries[k];
  }

  lemma FirstEntry(m: Members.Member, rest: seq<Byte>)
    ensures MemberAt(Messages.MemberEntry(m) + rest, 0, m)
  {
    var s := Messages.MemberEntry(m) + rest;
    assert s[0..16] == m.identity;
    assert s[16..20] == m.address.Octets() && forall k :: 0 <= k < 4 ==> s[16 + k] == s[16..20][k];
  }

  lemma {:induction false} EntryAt(members: seq<Members.Member>, k: nat)
    requires k < |members|
    ensures MemberAt(Messages.MemberEntries(members), 20 * k, members[k])
  {
    hide MemberAt, Messages.MemberEntry;
    var s, rest := Messages.MemberEntries(members), Messages.MemberEntries(members[1..]);
    assert s == Messages.MemberEntry(members[0]) + rest;
    if k == 0 {
      FirstEntry(members[0], rest);
    } else {
      EntryAt(members[1..], k - 1);
      assert s[20..] == rest;
      MemberShifts(s, 20, rest, 20 * (k - 1), members[k]);
    }
  }

  lemma NameIsShort(name: Text.Text)
    requires Text.ValidName(name)
    ensures |name| <= 32
  {
  }

  /** Names: how many, and for each its identity, a length and the name. */
  lemma NamesLayout(n: Messages.Named, names: seq<Messages.Named>)
    requires Messages.AllSendable([n] + names) && |names| < 32
    ensures Messages.Encode(Messages.Names([])) == [6, 0]
    ensures var (s, later) := (Messages.Encode(Messages.Names([n] + names)), Messages.Encode(Messages.Names(names)));
      s[1] == 1 + |names| && s == [6, 1 + |names|] + (n.identity + [|n.name|] + n.name) + later[2..]
  {
    var all := [n] + names;
    assert all[0] == n && all[1..] == names;
    TailSendable(n, names);
    NameIsShort(n.name);
    NamesSent(all);
    NamesSent(names);
    NamesSent([]);
    hide Text.ValidName, Messages.Encode;
    assert Messages.NameEntries(all) == Messages.NameEntry(n) + Messages.NameEntries(names);
  }

  lemma TailSendable(n: Messages.Named, names: seq<Messages.Named>)
    requires Messages.AllSendable([n] + names)
    ensures Messages.AllSendable(names) && Text.ValidName(n.name)
  {
    hide Text.ValidName;
    var all := [n] + names;
    assert all[0] == n && forall i :: 0 <= i < |names| ==> names[i] == all[i + 1];
  }

  lemma {:induction false} NamesSent(names: seq<Messages.Named>)
    requires Messages.AllSendable(names) && |names| <= 32
    ensures Messages.Encode(Messages.Names(names)) == [6, |names|] + Messages.NameEntries(names)
  {
    hide Text.ValidName, Messages.NameEntries, Messages.Kept;
    Messages.KeptAll(names);
    assert Messages.First32(names) == names;
    assert Messages.NamesBytes(names) == [6] + ([|names|] + Messages.NameEntries(names));
  }

  /** What is refused, and with what. */
  lemma {:induction false} RoomRefuses(b: seq<Byte>)
    ensures var r := Messages.Decode(b);
      && (r == Messages.Err(Messages.Empty) <==> b == [])
      && (b != [] && b[0] in {1, 3} ==> (r == Messages.Err(Messages.Truncated) <==> |b| == 1))
      && (b != [] && b[0] == 4 ==> r == if |b| > 1401 then Messages.Err(Messages.PacketTooLarge(|b| - 1))
                                        else Messages.Ok(Messages.Packet(b[1..])))
      && (b != [] && b[0] in {5, 7} ==> r.Ok? || r == Messages.Err(Messages.BadText))
      && (b != [] && b[0] == 8 ==>
            if |b| < 17 then r == Messages.Err(Messages.Truncated) else r.Ok? || r == Messages.Err(Messages.BadText))
      && (b != [] && b[0] !in {1, 2, 3, 4, 5, 6, 7, 8} ==> r == Messages.Ok(Messages.Unknown(b[0])))
  {
    hide Text.ValidName, Text.ValidChat, Messages.ReadMembers, RoomSubnet.Valid;
    if b != [] && b[0] == 6 && |b| > 1 {
      NotEmpty(b[2..], b[1]);
      assert b[1..][1..] == b[2..];
    }
  }

  lemma {:induction false} NotEmpty(b: seq<Byte>, count: nat)
    ensures Messages.ReadNames(b, count) != Messages.Err(Messages.Empty)
    decreases count
  {
    hide Text.ValidName;
    if count > 0 && |b| >= 17 && |b| >= 17 + b[16] as int {
      NotEmpty(b[17 + b[16] as int..], count - 1);
    }
  }

  /** A table: too short, a subnet that is not a room's, too many members, or fewer than it says, in that order. */
  lemma {:induction false} TableRefused(b: seq<Byte>)
    requires b != [] && b[0] == 2
    ensures var r := Messages.Decode(b);
      if |b| < 11 then r == Messages.Err(Messages.Truncated)
      else if !(16 <= b[9] <= 24) || Num(AddrAt(b, 5)) / 0x2_0000 != 198 * 128 + 9 then
        r == Messages.Err(Messages.BadSubnet)
      else if b[10] > 32 then r == Messages.Err(Messages.TooManyMembers(b[10]))
      else if |b| < 11 + 20 * b[10] as int then r == Messages.Err(Messages.Truncated) else r.Ok?
  {
    hide RoomSubnet.Valid, Messages.ReadMembers, HostSize;
    if |b| >= 11 {
      var rest := b[1..];
      assert AddrAt(rest, 4) == AddrAt(b, 5) && rest[8] == b[9] && rest[9] == b[10];
    }
  }

  /** Names: too many, or at the first that is cut short or not plain. */
  lemma {:induction false} NamesRefused(b: seq<Byte>)
    requires b != [] && b[0] == 6
    ensures var r := Messages.Decode(b);
      && (|b| == 1 ==> r == Messages.Err(Messages.Truncated))
      && (|b| > 1 && b[1] > 32 ==> r == Messages.Err(Messages.TooManyMembers(b[1])))
      && (|b| > 1 && 0 < b[1] <= 32 ==>
            if |b| < 19 || |b| < 19 + b[18] as int then r == Messages.Err(Messages.Truncated)
            else !Text.ValidName(b[19..19 + b[18] as int]) ==> r == Messages.Err(Messages.BadText))
  {
    hide Text.ValidName;
    if |b| >= 19 && |b| >= 19 + b[18] as int {
      var entries := b[1..][1..];
      assert entries[16] == b[18] && entries[17..17 + b[18] as int] == b[19..19 + b[18] as int];
    }
  }

  // ---------------------------------------------------------------- the announce record

  /** The flags, bit by bit; bits 6 and 7 are reserved. */
  lemma FlagBits(f: Announce.Flags)
    ensures var b := f.ToByte() as int;
      && (b % 2 == 1 <==> f.passworded) && (b / 2 % 2 == 1 <==> f.allowlisted) && (b / 4 % 2 == 1 <==> f.dedicated)
      && b / 8 % 4 == f.mode as int % 4 && (b / 32 % 2 == 1 <==> f.chat) && b / 64 == 0
  {
    var low := f.(mode := f.mode as int % 4);
    Announce.FlagsThere(low);
    assert low.ToByte() == f.ToByte();
    hide Announce.Flags.ToByte;
    FlagsRead(f.ToByte());
  }

  lemma FlagsRead(b: Byte)
    ensures var f := Announce.FlagsOf(b);
      && (f.passworded <==> b as int % 2 == 1) && (f.allowlisted <==> b as int / 2 % 2 == 1)
      && (f.dedicated <==> b as int / 4 % 2 == 1) && f.mode == b as int / 8 % 4 && (f.chat <==> b as int / 32 % 2 == 1)
  {
  }

  /** A text, its length in a byte before it, at `at`. */
  predicate TextAt(s: seq<Byte>, at: nat, text: seq<Byte>) {
    at + 1 + |text| <= |s| && s[at] as int == |text| && s[at + 1..at + 1 + |text|] == text
  }

  /** A record: version, protocol, flags, link class, players, the most players, then the three texts, then TLVs. */
  lemma {:induction false} RecordLayout(r: Announce.Record)
    requires Announce.Encode(r).Bytes?
    ensures var s := Announce.Encode(r).bytes;
      var (name, place) := (7 + |r.gameId|, 8 + |r.gameId| + |r.name|);
      && |s| >= 9 + |r.gameId| + |r.name| + |r.mapName|
      && s[0] == 1 && s[1] == r.protocol && s[2] == r.flags.ToByte() && s[3] == r.minLinkClass
      && s[4] == r.players && s[5] == r.maxPlayers
      && TextAt(s, 6, r.gameId) && TextAt(s, name, r.name) && TextAt(s, place, r.mapName)
      && s[place + 1 + |r.mapName|..] == Announce.TlvBytes(r.tlvs)
  {
    hide Announce.IsAscii, Text.IsUtf8, Announce.Flags.ToByte;
    var head: seq<Byte> := [1, r.protocol, r.flags.ToByte(), r.minLinkClass, r.players, r.maxPlayers];
    var (id, name, place, tlvs) := (Announce.Prefixed(r.gameId), Announce.Prefixed(r.name),
                                  Announce.Prefixed(r.mapName), Announce.TlvBytes(r.tlvs));
    var s := Announce.Encode(r).bytes;
    assert s == head + id + name + place + tlvs;
    FourParts(head, id, name, place, tlvs);
  }

  lemma FourParts(head: seq<Byte>, id: seq<Byte>, name: seq<Byte>, place: seq<Byte>, tlvs: seq<Byte>)
    requires |head| == 6 && 0 < |id| <= 256 && 0 < |name| <= 256 && 0 < |place| <= 256
    requires id[0] as int == |id| - 1 && name[0] as int == |name| - 1 && place[0] as int == |place| - 1
    ensures var s, n, m := head + id + name + place + tlvs, 6 + |id|, 6 + |id| + |name|;
      && s[..6] == head && (forall k :: 0 <= k < 6 ==> s[k] == head[k])
      && TextAt(s, 6, id[1..]) && TextAt(s, n, name[1..]) && TextAt(s, m, place[1..]) && s[m + |place|..] == tlvs
  {
    var s, n, m := head + id + name + place + tlvs, 6 + |id|, 6 + |id| + |name|;
    assert s[6..n] == id && s[n..m] == name && s[m..m + |place|] == place;
    Begins(s, 6, id);
    Begins(s, n, name);
    Begins(s, m, place);
  }

  lemma Begins(s: seq<Byte>, at: nat, text: seq<Byte>)
    requires 0 < |text| && at + |text| <= |s| && s[at..at + |text|] == text && text[0] as int == |text| - 1
    ensures TextAt(s, at, text[1..])
  {
    assert s[at] == s[at..at + |text|][0];
    assert s[at + 1..at + |text|] == s[at..at + |text|][1..];
  }

  /** TLVs: a type, a length and so many bytes, one after another. */
  lemma {:induction false} TlvLayout(tlv: Announce.Tlv, tlvs: seq<Announce.Tlv>)
    requires Announce.TlvsFit([tlv] + tlvs)
    ensures Announce.TlvsFit(tlvs)
    ensures Announce.TlvBytes([]) == []
    ensures Announce.TlvBytes([tlv] + tlvs) == [tlv.kind, |tlv.data|] + tlv.data + Announce.TlvBytes(tlvs)
  {
    var all := [tlv] + tlvs;
    assert all[0] == tlv && all[1..] == tlvs;
    assert forall i :: 0 <= i < |tlvs| ==> tlvs[i] == all[i + 1];
  }

  /** Why a record is not written, the first reason first. */
  lemma RecordRefused(r: Announce.Record)
    ensures match Announce.Encode(r)
      case Refused(reason) =>
        reason ==
          (if |r.gameId| == 0 then Announce.GameIdEmpty
           else if |r.gameId| > 24 then Announce.GameIdTooLong
           else if exists i :: 0 <= i < |r.gameId| && r.gameId[i] >= 128 then Announce.EncodeError.GameIdNotAscii
           else if |r.name| > 48 then Announce.NameTooLong
           else if |r.mapName| > 32 then Announce.MapTooLong
           else if r.minLinkClass !in {1, 2, 3} then Announce.UnknownMinLinkClass
           else if r.flags.mode !in {1, 2, 3} then Announce.UnknownTransportMode
           else if exists i :: 0 <= i < |r.tlvs| && |r.tlvs[i].data| > 255 then Announce.TlvTooLong
           else Announce.OutputTooLong)
      case Bytes(bytes) =>
        && 1 <= |r.gameId| <= 24 && |r.name| <= 48 && |r.mapName| <= 32
        && r.minLinkClass in {1, 2, 3} && r.flags.mode in {1, 2, 3} && |bytes| <= 284
        && Announce.TlvsFit(r.tlvs)
    ensures Announce.Encode(r) == Announce.Refused(Announce.OutputTooLong) ==>
              Announce.TlvsFit(r.tlvs) && |r.gameId| + |r.name| + |r.mapName| + |Announce.TlvBytes(r.tlvs)| > 275
  {
    hide Announce.Flags.ToByte, Announce.TlvBytes;
  }

  /** What is no record: over 316 bytes, or a first byte that is no version this build knows, a bare name then. */
  lemma {:induction false} RowWhen(b: seq<Byte>)
    ensures var r := Announce.Decode(b);
      && (|b| > 316 ==> r == Announce.Err(Announce.OverBudget(|b|)))
      && (b == [] ==> r == Announce.Ok(Announce.Legacy(None)))
      && (0 < |b| <= 316 && b[0] != 1 ==>
            r == if Text.IsUtf8(b) then Announce.Ok(Announce.Legacy(Some(b))) else Announce.Err(Announce.InvalidUtf8))
      && (0 < |b| <= 316 && b[0] == 1 ==>
            (r.Ok? ==> r.value.Row?) && (|b| < 7 ==> r == Announce.Err(Announce.Truncated)))
  {
    hide Text.IsUtf8, Announce.ReadTlvs, Announce.IsAscii, Announce.FlagsOf;
  }

  /** Of the fields, a length out of bounds is an error of its own, and comes before one that is cut short. */
  lemma {:induction false} FieldRefused(s: seq<Byte>)
    requires s != []
    ensures var (id, name, place, n) := (Announce.ReadId(s), Announce.ReadText(s, false), Announce.ReadText(s, true),
                                       s[0] as int);
      && id == (if n == 0 || n > 24 then Announce.Err(Announce.InvalidGameIdLen(n))
                else if |s| < 1 + n then Announce.Err(Announce.Truncated)
                else if exists i :: 1 <= i <= n && s[i] >= 128 then
                  Announce.Err(Announce.DecodeError.GameIdNotAscii)
                else Announce.Ok(Announce.Field(s[1..1 + n], s[1 + n..])))
      && name == (if n > 48 then Announce.Err(Announce.InvalidNameLen(n))
                  else if |s| < 1 + n then Announce.Err(Announce.Truncated)
                  else if !Text.IsUtf8(s[1..1 + n]) then Announce.Err(Announce.InvalidUtf8)
                  else Announce.Ok(Announce.Field(s[1..1 + n], s[1 + n..])))
      && place == (if n > 32 then Announce.Err(Announce.InvalidMapLen(n))
                 else if |s| < 1 + n then Announce.Err(Announce.Truncated)
                 else if !Text.IsUtf8(s[1..1 + n]) then Announce.Err(Announce.InvalidUtf8)
                 else Announce.Ok(Announce.Field(s[1..1 + n], s[1 + n..])))
  {
    hide Text.IsUtf8;
    var n := s[0] as int;
    if n <= 24 && |s| >= 1 + n {
      assert forall i :: 1 <= i <= n ==> s[1..1 + n][i - 1] == s[i];
      if i :| 1 <= i <= n && s[i] >= 128 {
        assert s[1..1 + n][i - 1] >= 128;
      }
    }
  }

  // ---------------------------------------------------------------- a server's chat

  /** One byte says what a message is; strings have their length in a byte before them. */
  lemma ChatKinds(m: ChatWire.ChatMessage)
    ensures match m
      case Hello(name) =>
        ChatWire.Encode(m) == if Text.ValidName(name) then Some([0x01, |name| % 256] + name) else None
      case Say(text) =>
        ChatWire.Encode(m) == if Text.ValidChat(text) then Some([0x02, |text| % 256] + text) else None
      case Welcome => ChatWire.Encode(m) == Some([0x10])
      case Names(_) => ChatWire.Encode(m).Some? && ChatWire.Encode(m).value[0] == 0x11
      case Line(from, at, text) => ChatWire.Encode(m).Some? <==> Text.ValidChat(text)
      case Unknown(_) => ChatWire.Encode(m).None?
  {
    hide Text.ValidName, Text.ValidChat;
    if m.Hello? {
      assert [0x01] + ChatWire.PutStr(m.name) == [0x01, |m.name| % 256] + m.name;
    } else if m.Say? {
      assert [0x02] + ChatWire.PutStr(m.text) == [0x02, |m.text| % 256] + m.text;
    }
  }

  /** A line: who, when, and what. */
  lemma LineLayout(from: Identity, at: ChatWire.U64, text: Text.Text)
    requires Text.ValidChat(text)
    ensures var s := ChatWire.Encode(ChatWire.Line(from, at, text)).value;
      && |s| == 26 + |text| && s[0] == 0x12 && s[1..17] == from && s[25] == |text| % 256 && s[26..] == text
      && Long(s, 17) * 0x1_0000_0000 + Long(s, 21) == at
  {
    hide Text.ValidChat;
    var (high, low) := (Messages.Bytes32(at / 0x1_0000_0000), Messages.Bytes32(at % 0x1_0000_0000));
    var s := ChatWire.Encode(ChatWire.Line(from, at, text)).value;
    assert s == [0x12] + from + high + low + [|text| % 256] + text;
    assert s[17..21] == high && s[21..25] == low;
    LongOf(at / 0x1_0000_0000, []);
    LongOf(at % 0x1_0000_0000, []);
    assert high + [] == high && low + [] == low;
    LongIn(s, 17, high);
    LongIn(s, 21, low);
  }

  lemma LongIn(s: seq<Byte>, at: nat, part: seq<Byte>)
    requires |part| == 4 && at + 4 <= |s| && s[at..at + 4] == part
    ensures Long(s, at) == Long(part, 0)
  {
    assert forall k :: 0 <= k < 4 ==> s[at + k] == part[k];
  }

  /** A roster: how many, and for each its identity, a length and the name. */
  lemma {:induction false} RosterLayout(n: ChatWire.Named, names: seq<ChatWire.Named>)
    requires Messages.AllSendable([n] + names) && |names| < 64
    ensures ChatWire.Encode(ChatWire.Names([])) == Some([0x11, 0])
    ensures var (s, later) := (ChatWire.Encode(ChatWire.Names([n] + names)).value,
                               ChatWire.Encode(ChatWire.Names(names)).value);
      s == [0x11, 1 + |names|] + (n.identity + [|n.name|] + n.name) + later[2..]
  {
    hide Text.ValidName, ChatWire.Encode, ChatWire.NameEntries, Messages.AllSendable;
    var all := [n] + names;
    assert all[0] == n && all[1..] == names;
    TailSendable(n, names);
    NameIsShort(n.name);
    RosterSent(all);
    RosterSent(names);
    NoneSendable();
    RosterSent([]);
    RosterEntry(n, names);
    var s, later := ChatWire.Encode(ChatWire.Names(all)).value, ChatWire.Encode(ChatWire.Names(names)).value;
    var entry, rest := n.identity + [|n.name|] + n.name, ChatWire.NameEntries(names);
    assert later == [0x11, |names|] + rest;
    assert later[2..] == rest;
    assert s == [0x11, |all|] + ChatWire.NameEntries(all);
    assert s == [0x11, |all|] + (entry + rest);
    assert [0x11 as Byte, 0 as Byte] + ChatWire.NameEntries([]) == [0x11, 0];
  }

  lemma NoneSendable()
    ensures Messages.AllSendable([])
  {
  }

  lemma {:induction false} RosterEntry(n: ChatWire.Named, names: seq<ChatWire.Named>)
    requires |n.name| < 256
    ensures ChatWire.NameEntries([n] + names)
         == n.identity + [|n.name|] + n.name + ChatWire.NameEntries(names)
    ensures ChatWire.NameEntries([]) == []
  {
    assert ([n] + names)[1..] == names;
    assert n.identity + ([|n.name|] + n.name) == n.identity + [|n.name|] + n.name;
  }

  lemma {:induction false} RosterSent(names: seq<ChatWire.Named>)
    requires Messages.AllSendable(names) && |names| <= 64
    ensures ChatWire.Encode(ChatWire.Names(names)) == Some([0x11, |names|] + ChatWire.NameEntries(names))
  {
    hide Text.ValidName, ChatWire.NameEntries, Messages.Kept;
    Messages.KeptAll(names);
    assert ChatWire.FirstNames(names) == names;
    assert [0x11] + ([|names|] + ChatWire.NameEntries(names)) == [0x11, |names|] + ChatWire.NameEntries(names);
  }

  /** On the stream, two bytes of length come first; none, or over 8192, ends the reading in error. */
  lemma {:induction false} StreamLayout(body: seq<Byte>, rest: seq<Byte>)
    requires |body| < 0x1_0000
    ensures var s := ChatWire.Framed(body) + rest;
      && s[0] as int * 256 + s[1] as int == |body| && s[2..2 + |body|] == body
      && (|body| == 0 || |body| > 8192 ==> ChatWire.ReadAll(s).None?)
      && (1 <= |body| <= 8192 && ChatWire.ReadAll(rest).Some? ==>
            ChatWire.ReadAll(s) == Some([body] + ChatWire.ReadAll(rest).value))
  {
    var s := ChatWire.Framed(body) + rest;
    assert s[2..2 + |body|] == body && s[2 + |body|..] == rest;
    assert Word(s, 0) == |body|;
  }

  // ---------------------------------------------------------------- framing

  /** Chunks of 1900 bytes behind a header of 0, and a last one of at most that behind a 1. */
  lemma {:induction false} ChunksAre(d: seq<Byte>)
    ensures var chunks := Framing.Frame(d);
      && chunks != [] && chunks[|chunks| - 1] != [] && chunks[|chunks| - 1][0] == 1
      && |chunks[|chunks| - 1]| <= 1901 && (d != [] ==> |chunks[|chunks| - 1]| > 1)
      && forall i :: 0 <= i < |chunks| - 1 ==>
           |chunks[i]| == 1901 && chunks[i][0] == 0 && 1900 * (i + 1) <= |d|
           && chunks[i][1..] == d[1900 * i..1900 * (i + 1)]
  {
    if d != [] {
      CutsAre(d);
    }
  }

  lemma {:induction false} CutsAre(d: seq<Byte>)
    requires d != []
    ensures var chunks := Framing.Cut(d);
      && chunks != [] && chunks[|chunks| - 1] != [] && chunks[|chunks| - 1][0] == 1
      && 1 < |chunks[|chunks| - 1]| <= 1901
      && forall i :: 0 <= i < |chunks| - 1 ==>
           |chunks[i]| == 1901 && chunks[i][0] == 0 && 1900 * (i + 1) <= |d|
           && chunks[i][1..] == d[1900 * i..1900 * (i + 1)]
  {
    if |d| > 1900 {
      var rest, later := d[1900..], Framing.Cut(d[1900..]);
      CutsAre(rest);
      var chunks := [[0] + d[..1900]] + later;
      forall i | 0 <= i < |chunks| - 1
        ensures |chunks[i]| == 1901 && chunks[i][0] == 0 && 1900 * (i + 1) <= |d|
             && chunks[i][1..] == d[1900 * i..1900 * (i + 1)]
      {
        if i > 0 {
          assert chunks[i] == later[i - 1];
          var at := 1900 * (i - 1);
          SliceOfTail(d, 1900, at, at + 1900);
          assert later[i - 1][1..] == rest[at..at + 1900];
        }
      }
    }
  }

  /** A channel is in bits 1 to 3 of each header, and nothing else differs. */
  lemma ChannelBits(d: seq<Byte>, channel: Byte)
    requires channel <= 7
    ensures var (plain, tagged) := (Framing.Frame(d), Framing.FrameOn(d, channel));
      |tagged| == |plain| && forall i :: 0 <= i < |plain| ==>
        && tagged[i] != [] && plain[i] != [] && tagged[i][1..] == plain[i][1..]
        && tagged[i][0] as int == plain[i][0] as int + 2 * channel as int
        && Framing.ChannelOf(tagged[i][0]) == channel && (Framing.IsFinal(tagged[i][0]) <==> i == |plain| - 1)
  {
    ChunksAre(d);
  }

  /** A datagram is complete with its final chunk, and handed back if it has no more than 65535 bytes. */
  lemma Completes(buf: seq<Byte>, chunk: Framing.Chunk)
    requires chunk != []
    ensures var (after, complete) := Framing.Fed(buf, chunk);
      if chunk[0] as int % 2 == 0 then after == buf + chunk[1..] && complete.None?
      else
        && after == []
        && complete == if |buf| + |chunk| - 1 <= 65535 then Some(buf + chunk[1..]) else None
  {
  }

  // ---------------------------------------------------------------- the repository and the room check

  /** A request: a length, the name, and where to read from. */
  lemma RequestLayout(name: Text.Text, offset: U32)
    ensures var body := Fetch.Request(name, offset);
      && |body| == 5 + |name| && body[0] == |name| % 256 && body[1..1 + |name|] == name
      && Long(body, 1 + |name|) == offset
  {
    var body := Fetch.Request(name, offset);
    assert body[1 + |name|..1 + |name| + 4] == Messages.Bytes32(offset);
    LongOf(offset, []);
    assert Messages.Bytes32(offset) + [] == Messages.Bytes32(offset);
    LongIn(body, 1 + |name|, Messages.Bytes32(offset));
  }

  /** An answer: 0, how long the file is, and up to 1400 bytes of it from there; 1 if it is not there; 2 if refused. */
  lemma AnswerLayout(dir: map<Text.Text, seq<Byte>>, servable: Text.Text -> bool, name: Text.Text, offset: U32)
    requires Text.IsUtf8(name) && |name| < 256
    ensures var a := Fetch.Answer(dir, servable, Fetch.Request(name, offset));
      if !servable(name) then a == [2]
      else if name !in dir then a == [1]
      else
        var file := dir[name];
        && |a| >= 5 && a[0] == 0 && Long(a, 1) == |file| % 0x1_0000_0000
        && a[5..] == if offset >= |file| then [] else if offset + 1400 < |file| then file[offset..offset + 1400]
                     else file[offset..]
  {
    hide Text.IsUtf8, Fetch.Parse, Fetch.Request;
    Fetch.RequestParses(name, offset);
    if servable(name) && name in dir {
      var total := Messages.Bytes32(|dir[name]| % 0x1_0000_0000);
      var a := Fetch.Answer(dir, servable, Fetch.Request(name, offset));
      assert a[1..5] == total && total + [] == total;
      LongOf(|dir[name]| % 0x1_0000_0000, []);
      LongIn(a, 1, total);
    }
  }

  function Ascii(s: string): seq<Byte>
    requires forall i :: 0 <= i < |s| ==> s[i] as int < 128
  {
    seq(|s|, i requires 0 <= i < |s| => s[i] as int)
  }

  /** A probe: an unfragmented UDP datagram of 32 bytes, its tag "gbl-room-check?1", then eight of nonce. */
  lemma ProbeLayout(p: seq<Byte>)
    ensures RoomCheck.IsProbe(p) <==>
              && Endpoints(p).Some? && p[9] == 17 && Word(p, 6) % 0x4000 == 0
              && var at := p[0] as int % 16 * 4;
                 && |p| == at + 32 && Word(p, at + 4) == 32
                 && p[at + 8..at + 24] == Ascii("gbl-room-check?1")
    ensures RoomCheck.IsProbe(p) ==>
              var (c, at) := (RoomCheck.Parse(p).value, p[0] as int % 16 * 4);
              && c.src == AddrAt(p, 12) && c.dst == AddrAt(p, 16) && c.nonce == p[at + 24..]
              && c.sport == Word(p, at) && c.dport == Word(p, at + 2)
  {
    Tags();
  }

  lemma Tags()
    ensures RoomCheck.PROBE_TAG == Ascii("gbl-room-check?1") && RoomCheck.REPLY_TAG == Ascii("gbl-room-check!1")
    ensures RoomCheck.PROBE_TAG != RoomCheck.REPLY_TAG
  {
    assert RoomCheck.PROBE_TAG[14] != RoomCheck.REPLY_TAG[14];
  }

  /** A room is for 1 to 32, whatever is asked for, and starts with nobody seated. */
  lemma CapacityIs(subnet: RoomSubnet, capacity: nat)
    ensures var t := Members.NewTable(subnet, capacity);
      && t.members == [] && t.epoch == 0 && t.subnet == subnet
      && t.capacity == if capacity == 0 then 1 else if capacity >= 32 then 32 else capacity
  {
  }
}
