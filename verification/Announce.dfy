/** The server browser's announce record (`announce.rs`): one row, in what one announce can carry. */
module Announce {
  import opened Wire
  import opened Text

  const MAX_APP_DATA := 316
  const MAX_RATCHETED := 284
  const RECORD_VERSION: Byte := 1
  const MAX_GAME_ID := 24
  const MAX_NAME := 48
  const MAX_MAP := 32

  // ---------------------------------------------------------------- the record

  datatype Flags = Flags(passworded: bool, allowlisted: bool, dedicated: bool, mode: Byte, chat: bool) {
    predicate ModeKnown() { 1 <= mode <= 3 }

    /** Bits 6 and 7 are reserved; the mode keeps its low two bits. */
    function ToByte(): (b: Byte)
      ensures b < 0x40
    {
      (if passworded then 1 else 0) + (if allowlisted then 2 else 0) + (if dedicated then 4 else 0)
      + (if chat then 0x20 else 0) + mode as int % 4 * 8
    }
  }

  function FlagsOf(b: Byte): Flags {
    Flags(b as int % 2 == 1, b as int / 2 % 2 == 1, b as int / 4 % 2 == 1, b as int / 8 % 4, b as int / 32 % 2 == 1)
  }

  /** A flags byte with the reserved bits cleared. */
  function Cleared(b: Byte): Byte { b as int % 0x40 }

  lemma FlagsThere(f: Flags)
    requires f.mode < 4
    ensures FlagsOf(f.ToByte()) == f
  {
  }

  lemma FlagsBack(b: Byte)
    ensures FlagsOf(b).ToByte() == Cleared(b)
  {
    var n := b as int;
    assert n % 0x40 == n % 2 + n / 2 % 2 * 2 + n / 4 % 2 * 4 + n / 8 % 4 * 8 + n / 32 % 2 * 32 by {
      assert n / 4 == n / 2 / 2 && n / 8 == n / 4 / 2 && n / 32 == n / 8 / 4 && n / 64 == n / 32 / 2;
    }
  }

  datatype Tlv = Tlv(kind: Byte, data: seq<Byte>)

  datatype Record = Record(protocol: Byte, flags: Flags, minLinkClass: Byte, players: Byte, maxPlayers: Byte,
                           gameId: Text, name: Text, mapName: Text, tlvs: seq<Tlv>)
  {
    predicate LinkClassKnown() { 1 <= minLinkClass <= 3 }

    /** What the types promise: its strings are UTF-8. */
    predicate Typed() { IsUtf8(name) && IsUtf8(mapName) }
  }

  predicate IsAscii(s: seq<Byte>) { forall i :: 0 <= i < |s| ==> s[i] < 0x80 }

  // ---------------------------------------------------------------- encoding

  datatype EncodeError = GameIdEmpty | GameIdNotAscii | GameIdTooLong | NameTooLong | MapTooLong
                       | UnknownMinLinkClass | UnknownTransportMode | TlvTooLong | OutputTooLong

  datatype Encoded = Bytes(bytes: seq<Byte>) | Refused(reason: EncodeError)

  predicate TlvsFit(tlvs: seq<Tlv>) { forall i :: 0 <= i < |tlvs| ==> |tlvs[i].data| <= 255 }

  function TlvBytes(tlvs: seq<Tlv>): seq<Byte>
    requires TlvsFit(tlvs)
  {
    if tlvs == [] then [] else OneTlv(tlvs[0]) + TlvBytes(tlvs[1..])
  }

  function OneTlv(tlv: Tlv): seq<Byte>
    requires |tlv.data| <= 255
  {
    [tlv.kind, |tlv.data|] + tlv.data
  }

  function Prefixed(text: seq<Byte>): seq<Byte>
    requires |text| <= 255
  {
    [|text|] + text
  }

  /** Everything before the TLVs. */
  function Fixed(r: Record): seq<Byte>
    requires |r.gameId| <= 255 && |r.name| <= 255 && |r.mapName| <= 255
  {
    [RECORD_VERSION, r.protocol, r.flags.ToByte(), r.minLinkClass, r.players, r.maxPlayers]
    + Prefixed(r.gameId) + Prefixed(r.name) + Prefixed(r.mapName)
  }

  function Encode(r: Record): Encoded {
    if r.gameId == [] then Refused(GameIdEmpty)
    else if |r.gameId| > MAX_GAME_ID then Refused(GameIdTooLong)
    else if !IsAscii(r.gameId) then Refused(EncodeError.GameIdNotAscii)
    else if |r.name| > MAX_NAME then Refused(NameTooLong)
    else if |r.mapName| > MAX_MAP then Refused(MapTooLong)
    else if !r.LinkClassKnown() then Refused(UnknownMinLinkClass)
    else if !r.flags.ModeKnown() then Refused(UnknownTransportMode)
    else if !TlvsFit(r.tlvs) then Refused(TlvTooLong)
    else
      var bytes := Fixed(r) + TlvBytes(r.tlvs);
      if |bytes| > MAX_RATCHETED then Refused(OutputTooLong) else Bytes(bytes)
  }

  // ---------------------------------------------------------------- decoding

  datatype DecodeError = Truncated | InvalidUtf8 | GameIdNotAscii | TlvTruncated | InvalidGameIdLen(n: nat)
                       | InvalidNameLen(n: nat) | InvalidMapLen(n: nat) | OverBudget(n: nat)

  datatype Result<+T> = Ok(value: T) | Err(error: DecodeError)

  datatype Info = Row(record: Record) | Legacy(name: Option<Text>)

  /** A field and what follows it. */
  datatype Field = Field(text: Text, rest: seq<Byte>)

  function ReadId(s: seq<Byte>): Result<Field>
    requires s != []
  {
    if s[0] == 0 || s[0] > MAX_GAME_ID then Err(InvalidGameIdLen(s[0]))
    else if 1 + s[0] as int > |s| then Err(Truncated)
    else if !IsAscii(s[1..1 + s[0] as int]) then Err(DecodeError.GameIdNotAscii)
    else Ok(Field(s[1..1 + s[0] as int], s[1 + s[0] as int..]))
  }

  /** The name, or, `isMap`, the map. */
  function ReadText(s: seq<Byte>, isMap: bool): Result<Field> {
    if s == [] then Err(Truncated)
    else if s[0] as int > (if isMap then MAX_MAP else MAX_NAME) then
      Err(if isMap then InvalidMapLen(s[0]) else InvalidNameLen(s[0]))
    else if 1 + s[0] as int > |s| then Err(Truncated)
    else if !IsUtf8(s[1..1 + s[0] as int]) then Err(InvalidUtf8)
    else Ok(Field(s[1..1 + s[0] as int], s[1 + s[0] as int..]))
  }

  /** Unknown kinds are kept as they are, never an error. */
  function ReadTlvs(s: seq<Byte>): Result<seq<Tlv>>
    decreases |s|
  {
    if s == [] then Ok([])
    else if |s| < 2 then Err(Truncated)
    else if 2 + s[1] as int > |s| then Err(TlvTruncated)
    else Onto([Tlv(s[0], s[2..2 + s[1] as int])], ReadTlvs(s[2 + s[1] as int..]))
  }

  function Onto(first: seq<Tlv>, later: Result<seq<Tlv>>): Result<seq<Tlv>> {
    if later.Ok? then Ok(first + later.value) else later
  }

  function DecodeRecord(b: seq<Byte>): Result<Record> {
    if |b| < 7 then Err(Truncated)
    else
      match ReadId(b[6..])
      case Err(e) => Err(e)
      case Ok(id) =>
        match ReadText(id.rest, false)
        case Err(e) => Err(e)
        case Ok(name) =>
          match ReadText(name.rest, true)
          case Err(e) => Err(e)
          case Ok(mapName) =>
            match ReadTlvs(mapName.rest)
            case Err(e) => Err(e)
            case Ok(tlvs) => Ok(Record(b[1], FlagsOf(b[2]), b[3], b[4], b[5], id.text, name.text, mapName.text, tlvs))
  }

  /** Anything but a record version this build knows is a bare display name, as old servers send. */
  function Decode(b: seq<Byte>): Result<Info> {
    if |b| > MAX_APP_DATA then Err(OverBudget(|b|))
    else if b == [] then Ok(Legacy(None))
    else if b[0] != RECORD_VERSION then (if IsUtf8(b) then Ok(Legacy(Some(b))) else Err(InvalidUtf8))
    else
      match DecodeRecord(b)
      case Err(e) => Err(e)
      case Ok(r) => Ok(Row(r))
  }

  // ---------------------------------------------------------------- the loops

  method EncodeRecord(r: Record) returns (out: Encoded)
    ensures out == Encode(r)
  {
    hide IsUtf8;
    if r.gameId == [] { return Refused(GameIdEmpty); }
    if |r.gameId| > MAX_GAME_ID { return Refused(GameIdTooLong); }
    if !IsAscii(r.gameId) { return Refused(EncodeError.GameIdNotAscii); }
    if |r.name| > MAX_NAME { return Refused(NameTooLong); }
    if |r.mapName| > MAX_MAP { return Refused(MapTooLong); }
    if !r.LinkClassKnown() { return Refused(UnknownMinLinkClass); }
    if !r.flags.ModeKnown() { return Refused(UnknownTransportMode); }
    if !TlvsFit(r.tlvs) { return Refused(TlvTooLong); }
    var size := 6 + (1 + |r.gameId|) + (1 + |r.name|) + (1 + |r.mapName|);
    var buf := Fixed(r);
    for i := 0 to |r.tlvs|
      invariant size + |TlvBytes(r.tlvs[i..])| == |Fixed(r)| + |TlvBytes(r.tlvs)|
    {
      assert r.tlvs[i..][0] == r.tlvs[i] && r.tlvs[i..][1..] == r.tlvs[i + 1..];
      size := size + 2 + |r.tlvs[i].data|;
    }
    assert r.tlvs[|r.tlvs|..] == [];
    if size > MAX_RATCHETED { return Refused(OutputTooLong); }
    for i := 0 to |r.tlvs|
      invariant buf + TlvBytes(r.tlvs[i..]) == Fixed(r) + TlvBytes(r.tlvs)
    {
      assert r.tlvs[i..][0] == r.tlvs[i] && r.tlvs[i..][1..] == r.tlvs[i + 1..];
      var tlv, later := OneTlv(r.tlvs[i]), TlvBytes(r.tlvs[i + 1..]);
      assert buf + (tlv + later) == buf + tlv + later;
      buf := buf + OneTlv(r.tlvs[i]);
    }
    out := Bytes(buf);
  }

  lemma OntoOnto(a: seq<Tlv>, b: seq<Tlv>, later: Result<seq<Tlv>>)
    ensures Onto([], later) == later
    ensures Onto(a, Onto(b, later)) == Onto(a + b, later)
    ensures Onto(a, Ok([])) == Ok(a)
  {
    assert a + [] == a;
    if later.Ok? {
      assert [] + later.value == later.value;
      assert a + (b + later.value) == (a + b) + later.value;
    }
  }

  /** The walk over the TLVs, from `pos` on. */
  method DecodeTlvs(b: seq<Byte>, start: nat) returns (r: Result<seq<Tlv>>)
    requires start <= |b|
    ensures r == ReadTlvs(b[start..])
  {
    hide ReadTlvs;
    var pos, tlvs: seq<Tlv> := start, [];
    OntoOnto([], [], ReadTlvs(b[start..]));
    while pos < |b|
      invariant start <= pos <= |b|
      invariant ReadTlvs(b[start..]) == Onto(tlvs, ReadTlvs(b[pos..]))
      decreases |b| - pos
    {
      TlvAt(b, pos);
      if pos + 2 > |b| {
        return Err(Truncated);
      }
      var kind, len := b[pos], b[pos + 1] as int;
      if pos + 2 + len > |b| {
        return Err(TlvTruncated);
      }
      OntoOnto(tlvs, [Tlv(kind, b[pos + 2..pos + 2 + len])], ReadTlvs(b[pos + 2 + len..]));
      tlvs := tlvs + [Tlv(kind, b[pos + 2..pos + 2 + len])];
      pos := pos + 2 + len;
    }
    OntoOnto(tlvs, [], Ok([]));
    TlvsEnd(b[pos..]);
    r := Ok(tlvs);
  }

  lemma TlvAt(b: seq<Byte>, pos: nat)
    requires pos < |b|
    ensures ReadTlvs(b[pos..])
         == if pos + 2 > |b| then Err(Truncated)
            else
              var end := pos + 2 + b[pos + 1] as int;
              if end > |b| then Err(TlvTruncated) else Onto([Tlv(b[pos], b[pos + 2..end])], ReadTlvs(b[end..]))
  {
    hide Onto;
    if pos + 2 <= |b| && pos + 2 + b[pos + 1] as int <= |b| {
      SliceOfTail(b, pos, 2, 2 + b[pos + 1] as int);
      assert b[pos..][2 + b[pos + 1] as int..] == b[pos + 2 + b[pos + 1] as int..];
    }
  }

  lemma {:induction false} TlvsEnd(s: seq<Byte>)
    requires s == []
    ensures ReadTlvs(s) == Ok([])
  {
  }

  // ---------------------------------------------------------------- each part there and back

  lemma ReadIdBack(id: seq<Byte>, rest: seq<Byte>)
    requires 1 <= |id| <= MAX_GAME_ID && IsAscii(id)
    ensures ReadId(Prefixed(id) + rest) == Ok(Field(id, rest))
  {
    var s := Prefixed(id) + rest;
    assert s[1..1 + |id|] == id && s[1 + |id|..] == rest;
  }

  lemma ReadIdForth(s: seq<Byte>)
    requires s != [] && ReadId(s).Ok?
    ensures var f := ReadId(s).value;
      1 <= |f.text| <= MAX_GAME_ID && IsAscii(f.text) && s == Prefixed(f.text) + f.rest
  {
  }

  lemma ReadTextBack(text: Text, rest: seq<Byte>, isMap: bool)
    requires |text| <= (if isMap then MAX_MAP else MAX_NAME) && IsUtf8(text)
    ensures ReadText(Prefixed(text) + rest, isMap) == Ok(Field(text, rest))
  {
    hide IsUtf8;
    var s := Prefixed(text) + rest;
    assert s[1..1 + |text|] == text && s[1 + |text|..] == rest;
  }

  lemma ReadTextForth(s: seq<Byte>, isMap: bool)
    requires ReadText(s, isMap).Ok?
    ensures var f := ReadText(s, isMap).value;
      |f.text| <= (if isMap then MAX_MAP else MAX_NAME) && IsUtf8(f.text) && s == Prefixed(f.text) + f.rest
  {
    hide IsUtf8;
  }

  lemma {:induction false} ReadTlvsBack(tlvs: seq<Tlv>)
    requires TlvsFit(tlvs)
    ensures ReadTlvs(TlvBytes(tlvs)) == Ok(tlvs)
  {
    if tlvs != [] {
      var s, t := TlvBytes(tlvs), tlvs[0];
      assert s[2..2 + |t.data|] == t.data && s[2 + |t.data|..] == TlvBytes(tlvs[1..]);
      ReadTlvsBack(tlvs[1..]);
      assert [t] + tlvs[1..] == tlvs;
    }
  }

  lemma {:induction false} ReadTlvsForth(s: seq<Byte>)
    requires ReadTlvs(s).Ok?
    ensures TlvsFit(ReadTlvs(s).value) && TlvBytes(ReadTlvs(s).value) == s
    decreases |s|
  {
    hide OneTlv, Onto;
    if s != [] {
      var t, rest := FirstTlv(s);
      ReadTlvsForth(rest);
      TlvBytesOnto(t, ReadTlvs(rest).value);
    }
  }

  lemma FirstTlv(s: seq<Byte>) returns (t: Tlv, rest: seq<Byte>)
    requires s != [] && ReadTlvs(s).Ok?
    ensures |t.data| <= 255 && |rest| < |s| && s == OneTlv(t) + rest
    ensures ReadTlvs(rest).Ok? && ReadTlvs(s).value == [t] + ReadTlvs(rest).value
  {
    var n := s[1] as int;
    t, rest := Tlv(s[0], s[2..2 + n]), s[2 + n..];
  }

  lemma {:induction false} TlvBytesOnto(t: Tlv, later: seq<Tlv>)
    requires |t.data| <= 255 && TlvsFit(later)
    ensures TlvsFit([t] + later) && TlvBytes([t] + later) == OneTlv(t) + TlvBytes(later)
  {
    hide OneTlv;
    var all := [t] + later;
    assert all[0] == t && all[1..] == later;
  }

  // ---------------------------------------------------------------- the whole record

  lemma FixedParts(r: Record, tail: seq<Byte>)
    requires |r.gameId| <= 255 && |r.name| <= 255 && |r.mapName| <= 255
    ensures var b := Fixed(r) + tail;
      && b[..6] == [RECORD_VERSION, r.protocol, r.flags.ToByte(), r.minLinkClass, r.players, r.maxPlayers]
      && b[6..] == Prefixed(r.gameId) + (Prefixed(r.name) + (Prefixed(r.mapName) + tail))
  {
    var head := [RECORD_VERSION, r.protocol, r.flags.ToByte(), r.minLinkClass, r.players, r.maxPlayers];
    var x, y, z := Prefixed(r.gameId), Prefixed(r.name), Prefixed(r.mapName);
    assert Fixed(r) + tail == head + (x + (y + (z + tail)));
  }

  /** What any tail of TLV bytes makes of a record's fixed part. */
  lemma {:induction false} DecodeFixed(r: Record, tail: seq<Byte>)
    requires Encode(r).Bytes? && r.Typed()
    ensures DecodeRecord(Fixed(r) + tail)
         == match ReadTlvs(tail) case Err(e) => Err(e) case Ok(tlvs) => Ok(r.(tlvs := tlvs))
  {
    hide IsUtf8, IsAscii, ReadTlvs;
    var b := Fixed(r) + tail;
    FixedParts(r, tail);
    assert b[..6][1] == b[1] && b[..6][2] == b[2] && b[..6][3] == b[3] && b[..6][4] == b[4] && b[..6][5] == b[5];
    FlagsThere(r.flags);
    ReadIdBack(r.gameId, Prefixed(r.name) + (Prefixed(r.mapName) + tail));
    ReadTextBack(r.name, Prefixed(r.mapName) + tail, false);
    ReadTextBack(r.mapName, tail, true);
  }

  /** Every record that encodes decodes to itself. */
  lemma EncodeDecode(r: Record)
    requires Encode(r).Bytes? && r.Typed()
    ensures Decode(Encode(r).bytes) == Ok(Row(r)) && |Encode(r).bytes| <= MAX_RATCHETED
  {
    hide IsUtf8, IsAscii, ReadTlvs, DecodeRecord;
    var b := Encode(r).bytes;
    FixedParts(r, TlvBytes(r.tlvs));
    assert b[0] == b[..6][0];
    ReadTlvsBack(r.tlvs);
    DecodeFixed(r, TlvBytes(r.tlvs));
  }

  /** What bytes decode to, field by field: they are its encoding, but for the reserved flag bits. */
  lemma DecodedParts(b: seq<Byte>)
    requires DecodeRecord(b).Ok? && b[0] == RECORD_VERSION
    ensures |b| >= 7
    ensures var r := DecodeRecord(b).value;
      && r.Typed() && TlvsFit(r.tlvs) && 1 <= |r.gameId| <= MAX_GAME_ID && IsAscii(r.gameId)
      && |r.name| <= MAX_NAME && |r.mapName| <= MAX_MAP
      && Fixed(r) + TlvBytes(r.tlvs) == b[2 := Cleared(b[2])]
  {
    hide IsUtf8, IsAscii, ReadTlvs, ReadText, ReadId;
    ReadIdForth(b[6..]);
    var id := ReadId(b[6..]).value;
    ReadTextForth(id.rest, false);
    var name := ReadText(id.rest, false).value;
    ReadTextForth(name.rest, true);
    var mapName := ReadText(name.rest, true).value;
    ReadTlvsForth(mapName.rest);
    var r := DecodeRecord(b).value;
    FlagsBack(b[2]);
    var c := b[2 := Cleared(b[2])];
    FixedParts(r, TlvBytes(r.tlvs));
    var e := Fixed(r) + TlvBytes(r.tlvs);
    assert e[6..] == b[6..] == c[6..];
    assert e[..6] == c[..6];
    assert e == e[..6] + e[6..] && c == c[..6] + c[6..];
  }

  /** Bytes that decode to a record this build fully knows, within the budget, are its encoding. */
  lemma DecodeEncode(b: seq<Byte>)
    requires Decode(b).Ok? && Decode(b).value.Row? && |b| <= MAX_RATCHETED
    ensures |b| >= 7
    ensures var r := Decode(b).value.record;
      Encode(r) == Bytes(b[2 := Cleared(b[2])]) <==> r.LinkClassKnown() && r.flags.ModeKnown()
  {
    hide IsUtf8, IsAscii, DecodeRecord, TlvBytes;
    DecodedParts(b);
  }

  // ---------------------------------------------------------------- cut short

  lemma ReadTextCut(text: Text, isMap: bool, k: nat)
    requires |text| <= (if isMap then MAX_MAP else MAX_NAME) && k < |Prefixed(text)|
    ensures ReadText(Prefixed(text)[..k], isMap) == Err(Truncated)
  {
    hide IsUtf8;
  }

  lemma ReadIdCut(id: seq<Byte>, k: nat)
    requires 1 <= |id| <= MAX_GAME_ID && 1 <= k < |Prefixed(id)|
    ensures ReadId(Prefixed(id)[..k]) == Err(Truncated)
  {
    hide IsAscii;
  }

  /** TLVs cut short read as whole TLVs, if cut between two, or not at all. */
  lemma {:induction false} ReadTlvsCut(tlvs: seq<Tlv>, k: nat)
    requires TlvsFit(tlvs) && k <= |TlvBytes(tlvs)|
    ensures var r := ReadTlvs(TlvBytes(tlvs)[..k]);
      if r.Ok? then r.value <= tlvs && |TlvBytes(r.value)| == k
      else r.error in {Truncated, TlvTruncated} && forall j :: 0 <= j <= |tlvs| ==> |TlvBytes(tlvs[..j])| != k
    decreases |tlvs|
  {
    var r := ReadTlvs(TlvBytes(tlvs)[..k]);
    if r.Ok? {
      ReadTlvsForth(TlvBytes(tlvs)[..k]);
      CutIsPrefix(tlvs, k);
    } else {
      forall j | 0 <= j <= |tlvs| ensures |TlvBytes(tlvs[..j])| != k {
        if |TlvBytes(tlvs[..j])| == k {
          TlvsSplit(tlvs, j);
          assert TlvBytes(tlvs)[..k] == TlvBytes(tlvs[..j]);
          ReadTlvsBack(tlvs[..j]);
        }
      }
      CutError(tlvs, k);
    }
  }

  lemma {:induction false} TlvsSplit(tlvs: seq<Tlv>, j: nat)
    requires TlvsFit(tlvs) && j <= |tlvs|
    ensures TlvBytes(tlvs) == TlvBytes(tlvs[..j]) + TlvBytes(tlvs[j..])
  {
    hide OneTlv;
    if j == 0 {
      assert tlvs[..0] == [] && tlvs[0..] == tlvs;
    } else {
      TlvsSplit(tlvs[1..], j - 1);
      assert tlvs[..j][1..] == tlvs[1..][..j - 1] && tlvs[1..][j - 1..] == tlvs[j..];
      assert OneTlv(tlvs[0]) + (TlvBytes(tlvs[1..][..j - 1]) + TlvBytes(tlvs[j..]))
          == OneTlv(tlvs[0]) + TlvBytes(tlvs[1..][..j - 1]) + TlvBytes(tlvs[j..]);
    }
  }

  lemma {:induction false} CutIsPrefix(tlvs: seq<Tlv>, k: nat)
    requires TlvsFit(tlvs) && k <= |TlvBytes(tlvs)| && ReadTlvs(TlvBytes(tlvs)[..k]).Ok?
    ensures ReadTlvs(TlvBytes(tlvs)[..k]).value <= tlvs
    decreases |tlvs|
  {
    var s := TlvBytes(tlvs)[..k];
    if s != [] {
      var n := |OneTlv(tlvs[0])|;
      assert TlvBytes(tlvs)[1] == |tlvs[0].data|;
      assert s[2..n] == tlvs[0].data;
      assert s[n..] == TlvBytes(tlvs[1..])[..k - n];
      CutIsPrefix(tlvs[1..], k - n);
      assert [tlvs[0]] + tlvs[1..] == tlvs;
    }
  }

  lemma {:induction false} CutError(tlvs: seq<Tlv>, k: nat)
    requires TlvsFit(tlvs) && k <= |TlvBytes(tlvs)|
    ensures var r := ReadTlvs(TlvBytes(tlvs)[..k]); r.Err? ==> r.error in {Truncated, TlvTruncated}
    decreases |tlvs|
  {
    var s := TlvBytes(tlvs)[..k];
    if |s| >= 2 {
      var n := |OneTlv(tlvs[0])|;
      assert TlvBytes(tlvs)[1] == |tlvs[0].data|;
      if n <= k {
        assert s[n..] == TlvBytes(tlvs[1..])[..k - n];
        CutError(tlvs[1..], k - n);
      }
    }
  }

  /** A fixed part cut short is never a record. */
  lemma FixedCut(r: Record, k: nat)
    requires Encode(r).Bytes? && r.Typed() && k < |Fixed(r)|
    ensures DecodeRecord(Fixed(r)[..k]) == Err(Truncated)
  {
    hide IsUtf8, IsAscii, ReadTlvs;
    if k >= 7 {
      var b, x, y, z := Fixed(r)[..k], Prefixed(r.gameId), Prefixed(r.name), Prefixed(r.mapName);
      FixedParts(r, []);
      assert Fixed(r) + [] == Fixed(r) && z + [] == z;
      assert b[6..] == (x + (y + z))[..k - 6];
      if k - 6 < |x| {
        assert b[6..] == x[..k - 6];
        ReadIdCut(r.gameId, k - 6);
      } else if k - 6 - |x| < |y| {
        assert b[6..] == x + y[..k - 6 - |x|];
        ReadIdBack(r.gameId, y[..k - 6 - |x|]);
        ReadTextCut(r.name, false, k - 6 - |x|);
      } else {
        var m := k - 6 - |x| - |y|;
        assert b[6..] == x + (y + z[..m]);
        ReadIdBack(r.gameId, y + z[..m]);
        ReadTextBack(r.name, z[..m], false);
        ReadTextCut(r.mapName, true, m);
      }
    }
  }

  /**
   An announce cut short, but not to nothing: it decodes exactly when cut at the end of the map or
   of a TLV, and then to the same record with the TLVs that are whole.
   */
  lemma PrefixDecodes(r: Record, k: nat)
    requires Encode(r).Bytes? && r.Typed() && 1 <= k < |Encode(r).bytes|
    ensures var d := Decode(Encode(r).bytes[..k]);
      && (d.Ok? <==> exists j :: 0 <= j <= |r.tlvs| && |Fixed(r)| + |TlvBytes(r.tlvs[..j])| == k)
      && (d.Ok? ==> d.value.Row? && d.value.record == r.(tlvs := d.value.record.tlvs)
                    && d.value.record.tlvs <= r.tlvs && |Fixed(r)| + |TlvBytes(d.value.record.tlvs)| == k)
      && (d.Err? ==> d.error in {Truncated, TlvTruncated})
  {
    hide IsUtf8, IsAscii, ReadTlvs, DecodeRecord, TlvBytes;
    var b, fixed := Encode(r).bytes, Fixed(r);
    FixedParts(r, TlvBytes(r.tlvs));
    assert b[0] == b[..6][0];
    if k < |fixed| {
      assert b[..k] == fixed[..k];
      FixedCut(r, k);
    } else {
      var m := k - |fixed|;
      assert b[..k] == fixed + TlvBytes(r.tlvs)[..m];
      DecodeFixed(r, TlvBytes(r.tlvs)[..m]);
      ReadTlvsCut(r.tlvs, m);
      var tlvs := ReadTlvs(TlvBytes(r.tlvs)[..m]);
      if tlvs.Ok? {
        assert r.tlvs[..|tlvs.value|] == tlvs.value;
      }
    }
  }
}
