/**
 The room check's packets (`lan_check.rs`): an IPv4/UDP packet built from scratch, the reader of
 probes and answers, and the answer to a probe.

 The packet builder is the translator's reference: rewriting an address in a built packet gives,
 byte for byte, the packet built with that address.
 */
module RoomCheck {
  import opened Wire
  import opened Checksum
  import opened Ipv4
  import opened Rewrite
  import opened RewriteLaws
  import UndoLaws

  // ---------------------------------------------------------------- building from scratch

  /** UDP's two ways to write the same checksum: all ones stands in for zero. */
  function UdpForm(sum: U16): U16 { if sum == 0 then 0xffff else sum }

  /** The IP header before its checksum is filled in. */
  function Head(src: Addr, dst: Addr, total: U16): (p: seq<Byte>)
    ensures |p| == 20
  {
    [0x45, 0] + Bytes16(total) + [0, 0, 0, 0, 64, PROTO_UDP, 0, 0] + src.Octets() + dst.Octets()
  }

  function Datagram(sport: U16, dport: U16, payload: seq<Byte>): (p: seq<Byte>)
    requires 28 + |payload| < 0x1_0000
    ensures |p| == 8 + |payload|
  {
    Bytes16(sport) + Bytes16(dport) + Bytes16(8 + |payload|) + [0, 0] + payload
  }

  /** The packet before its checksums are filled in. */
  function Unsummed(src: Addr, dst: Addr, sport: U16, dport: U16, payload: seq<Byte>): (p: seq<Byte>)
    requires 28 + |payload| < 0x1_0000
    ensures |p| == 28 + |payload|
  {
    Head(src, dst, 28 + |payload|) + Datagram(sport, dport, payload)
  }

  function Pseudo(src: Addr, dst: Addr, len: U16): seq<Byte> {
    src.Octets() + dst.Octets() + [0, PROTO_UDP] + Bytes16(len)
  }

  function HeaderChecksum(p: seq<Byte>): U16
    requires |p| >= 20
  {
    Complement(SumOf(p[..20]))
  }

  function UdpChecksum(src: Addr, dst: Addr, p: seq<Byte>): U16
    requires 28 <= |p| < 0x1_0000
  {
    UdpForm(Complement(SumOf(Pseudo(src, dst, |p| - 20)) + SumOf(p[20..])))
  }

  function UdpPacket(src: Addr, dst: Addr, sport: U16, dport: U16, payload: seq<Byte>): (p: seq<Byte>)
    requires 28 + |payload| < 0x1_0000
    ensures |p| == 28 + |payload|
  {
    var p := Unsummed(src, dst, sport, dport, payload);
    Splice(Splice(p, 10, Bytes16(HeaderChecksum(p))), 26, Bytes16(UdpChecksum(src, dst, p)))
  }

  /** The source's builder: a zeroed buffer filled field by field, then summed. */
  method BuildUdp(src: Addr, dst: Addr, sport: U16, dport: U16, payload: seq<Byte>) returns (p: array<Byte>)
    requires 28 + |payload| < 0x1_0000
    ensures fresh(p) && p[..] == UdpPacket(src, dst, sport, dport, payload)
  {
    var udpLen := 8 + |payload|;
    p := new Byte[20 + udpLen](_ => 0);
    ghost var base := Unsummed(src, dst, sport, dport, payload);
    FillHeader(p, src, dst);
    FillUdp(p, sport, dport, payload);
    assert base[..20] == Head(src, dst, p.Length);
    SpliceHead(p[..20], p[20..], base, Bytes16(HeaderChecksum(base)));
    assert p[..] == p[..20] + p[20..];
    assert p[20..] == base[20..];
    SumUdp(p, src, dst, base);
  }

  method SumUdp(p: array<Byte>, src: Addr, dst: Addr, ghost base: seq<Byte>)
    requires 28 <= p.Length == |base| < 0x1_0000 && p[20..] == base[20..]
    modifies p
    ensures p[..] == Splice(old(p[..]), 26, Bytes16(UdpChecksum(src, dst, base)))
  {
    var pseudo := Pseudo(src, dst, p.Length - 20);
    var datagram := p[20..];
    UdpChecksumParts(src, dst, base, datagram);
    var udpSum := Compute([pseudo, datagram]);
    CopyInto(p, 26, Bytes16(if udpSum == 0 then 0xffff else udpSum));
  }

  lemma UdpChecksumParts(src: Addr, dst: Addr, base: seq<Byte>, datagram: seq<Byte>)
    requires 28 <= |base| < 0x1_0000 && datagram == base[20..]
    ensures TotalLen([Pseudo(src, dst, |base| - 20), datagram]) == 12 + |datagram|
    ensures UdpChecksum(src, dst, base)
         == UdpForm(Complement(SumParts([Pseudo(src, dst, |base| - 20), datagram])))
  {
    SumTwo(Pseudo(src, dst, |base| - 20), datagram);
  }

  lemma SpliceHead(head: seq<Byte>, tail: seq<Byte>, base: seq<Byte>, bytes: seq<Byte>)
    requires |base| >= 20 && |bytes| == 2 && head == Splice(base[..20], 10, bytes) && tail == base[20..]
    ensures head + tail == Splice(base, 10, bytes)
  {
  }

  lemma SumOne(a: seq<Byte>)
    ensures SumParts([a]) == SumOf(a) && TotalLen([a]) == |a|
  {
    assert [a][1..] == [];
    assert SumParts([]) == 0 && TotalLen([]) == 0;
  }

  lemma SumTwo(a: seq<Byte>, b: seq<Byte>)
    ensures SumParts([a, b]) == SumOf(a) + SumOf(b) && TotalLen([a, b]) == |a| + |b|
  {
    assert [a, b][1..] == [b];
    SumOne(b);
  }

  method FillHeader(p: array<Byte>, src: Addr, dst: Addr)
    requires 28 <= p.Length < 0x1_0000
    requires forall k :: 0 <= k < p.Length ==> p[k] == 0
    modifies p
    ensures p[20..] == old(p[20..])
    ensures var head := Head(src, dst, p.Length); p[..20] == Splice(head, 10, Bytes16(Complement(SumOf(head))))
  {
    p[0] := 0x45;
    CopyInto(p, 2, Bytes16(p.Length));
    p[8] := 64;
    p[9] := PROTO_UDP;
    CopyInto(p, 12, src.Octets());
    CopyInto(p, 16, dst.Octets());
    var head := p[..20];
    assert head == Head(src, dst, p.Length);
    SumOne(head);
    var ipSum := Compute([head]);
    CopyInto(p, 10, Bytes16(ipSum));
  }

  method FillUdp(p: array<Byte>, sport: U16, dport: U16, payload: seq<Byte>)
    requires p.Length == 28 + |payload| < 0x1_0000 && p[26] == p[27] == 0
    modifies p
    ensures p[..20] == old(p[..20]) && p[20..] == Datagram(sport, dport, payload)
  {
    ghost var z := p[..];
    CopyInto(p, 20, Bytes16(sport));
    CopyInto(p, 22, Bytes16(dport));
    CopyInto(p, 24, Bytes16(8 + |payload|));
    CopyInto(p, 28, payload);
    Filled(z, sport, dport, payload);
    assert p[..20] == p[..][..20] && p[20..] == p[..][20..];
  }

  lemma Filled(z: seq<Byte>, sport: U16, dport: U16, payload: seq<Byte>)
    requires |z| == 28 + |payload| < 0x1_0000 && z[26] == z[27] == 0
    ensures var ports := Splice(Splice(z, 20, Bytes16(sport)), 22, Bytes16(dport));
      var q := Splice(Splice(ports, 24, Bytes16(8 + |payload|)), 28, payload);
      q[..20] == z[..20] && q[20..] == Datagram(sport, dport, payload)
  {
    var a := Splice(z, 20, Bytes16(sport));
    var b := Splice(a, 22, Bytes16(dport));
    var c := Splice(b, 24, Bytes16(8 + |payload|));
    var q := Splice(c, 28, payload);
    var d := Datagram(sport, dport, payload);
    forall k | 0 <= k < 20 ensures q[k] == z[k] {}
    forall k | 0 <= k < |d| ensures q[20 + k] == d[k] {
      if k >= 8 {
        assert d[k] == payload[k - 8] == q[20 + k];
      }
    }
    assert q[20..] == d;
  }

  // ---------------------------------------------------------------- built packets and the translator

  lemma BuiltShape(src: Addr, dst: Addr, sport: U16, dport: U16, payload: seq<Byte>)
    requires 28 + |payload| < 0x1_0000
    ensures var p, base := UdpPacket(src, dst, sport, dport, payload), Unsummed(src, dst, sport, dport, payload);
      && WellFormed(p) && HeaderLen(p) == 20 && p[9] == PROTO_UDP && FragmentOffset(p) == 0
      && AddrAt(p, 12) == src && AddrAt(p, 16) == dst && HasSegmentSum(p) && SegmentSumAt(p) == 26
      && Word(p, 10) == HeaderChecksum(base) && Word(p, 26) == UdpChecksum(src, dst, base)
      && Endpoints(base).Some? && AddrAt(base, 12) == src && AddrAt(base, 16) == dst
      && Word(base, 10) == 0 && Word(base, 26) == 0
  {
    var base := Unsummed(src, dst, sport, dport, payload);
    var c, u := Bytes16(HeaderChecksum(base)), Bytes16(UdpChecksum(src, dst, base));
    BaseShape(src, dst, sport, dport, payload);
    SpliceIndex(base, 10, c);
    SpliceIndex(Splice(base, 10, c), 26, u);
  }

  lemma BaseShape(src: Addr, dst: Addr, sport: U16, dport: U16, payload: seq<Byte>)
    requires 28 + |payload| < 0x1_0000
    ensures var base := Unsummed(src, dst, sport, dport, payload);
      && base[0] == 0x45 && base[6] == base[7] == base[10] == base[11] == base[26] == base[27] == 0
      && base[9] == PROTO_UDP && AddrAt(base, 12) == src && AddrAt(base, 16) == dst
  {
    var base, head := Unsummed(src, dst, sport, dport, payload), Head(src, dst, 28 + |payload|);
    assert forall k :: 0 <= k < 20 ==> base[k] == head[k];
    assert base[26] == Datagram(sport, dport, payload)[6] && base[27] == Datagram(sport, dport, payload)[7];
  }

  lemma PseudoSum(src: Addr, dst: Addr, len: U16)
    ensures SumOf(Pseudo(src, dst, len)) == SumOf(src.Octets()) + SumOf(dst.Octets()) + 17 + len
  {
    var p := Pseudo(src, dst, len);
    assert p[0..4] == src.Octets() && p[4..8] == dst.Octets() && p[8..12] == [0, 17] + Bytes16(len);
    SumSplit(p, 0, 4, 12);
    SumSplit(p, 4, 8, 12);
    SumSlice(p, 0, 4);
    SumSlice(p, 4, 8);
    assert Sum(p, 12, 12) == 0;
  }

  /** Addresses in a header, summed. */
  lemma {:induction false} AddressSum(p: seq<Byte>)
    requires |p| >= 20
    ensures Sum(p, 12, 20) == SumOf(AddrAt(p, 12).Octets()) + SumOf(AddrAt(p, 16).Octets())
  {
    assert p[12..16] == AddrAt(p, 12).Octets() && p[16..20] == AddrAt(p, 16).Octets();
    SumSplit(p, 12, 16, 20);
    SumSlice(p, 12, 16);
    SumSlice(p, 16, 20);
  }

  /** Filling in a checksum that was zero adds it to the sum. */
  lemma Filling(p: seq<Byte>, at: nat, v: U16)
    requires at + 2 <= |p| && at % 2 == 0 && Word(p, at) == 0
    ensures SumOf(Splice(p, at, Bytes16(v))) == SumOf(p) + v
  {
    SumSplice(p, 0, |p|, at, Bytes16(v));
    SumBytes16(v);
    WordSum(p, at);
  }

  lemma FilledHeader(base: seq<Byte>, c: U16, u: U16)
    requires |base| >= 28 && Word(base, 10) == 0
    ensures SumOf(Splice(Splice(base, 10, Bytes16(c)), 26, Bytes16(u))[..20]) == SumOf(base[..20]) + c
  {
    var head := base[..20];
    Filling(head, 10, c);
    var a := Splice(base, 10, Bytes16(c));
    UndoLaws.SplicePrefix(base, 10, Bytes16(c), 20);
    UndoLaws.SplicePrefix(a, 26, Bytes16(u), 20);
  }

  lemma FilledDatagram(base: seq<Byte>, c: U16, u: U16)
    requires |base| >= 28 && Word(base, 26) == 0
    ensures SumOf(Splice(Splice(base, 10, Bytes16(c)), 26, Bytes16(u))[20..]) == SumOf(base[20..]) + u
  {
    var tail := base[20..];
    assert Word(tail, 6) == Word(base, 26);
    Filling(tail, 6, u);
    var a := Splice(base, 10, Bytes16(c));
    assert a[20..] == tail;
    assert Splice(a, 26, Bytes16(u))[20..] == Splice(tail, 6, Bytes16(u));
  }

  lemma UdpFormVerifies(total: nat)
    requires total > 0
    ensures Verifies(total + UdpForm(Complement(total)))
  {
    ComplementVerifies(total);
    VerifiesIff(total + Complement(total));
    ModAdd(total, 1);
    VerifiesIff(total + UdpForm(Complement(total)));
  }

  /** What is built verifies at both layers: neither checksum is wrong, and UDP's is there. */
  lemma BuiltVerifies(src: Addr, dst: Addr, sport: U16, dport: U16, payload: seq<Byte>)
    requires 28 + |payload| < 0x1_0000
    ensures var p := UdpPacket(src, dst, sport, dport, payload);
      WellFormed(p) && IpHeaderValid(p) && HasSegmentSum(p) && SegmentValid(p, |p|)
  {
    var base, p := Unsummed(src, dst, sport, dport, payload), UdpPacket(src, dst, sport, dport, payload);
    BuiltShape(src, dst, sport, dport, payload);
    BuiltHeaderVerifies(base, p);
    BuiltSegmentVerifies(src, dst, base, p);
  }

  lemma BuiltHeaderVerifies(base: seq<Byte>, p: seq<Byte>)
    requires |base| >= 28 && base[0] > 0 && Word(base, 10) == 0 && WellFormed(p) && HeaderLen(p) == 20
    requires exists u: U16 :: p == Splice(Splice(base, 10, Bytes16(HeaderChecksum(base))), 26, Bytes16(u))
    ensures IpHeaderValid(p)
  {
    var u: U16 :| p == Splice(Splice(base, 10, Bytes16(HeaderChecksum(base))), 26, Bytes16(u));
    FilledHeader(base, HeaderChecksum(base), u);
    SumSlice(p, 0, HeaderLen(p));
    SomethingInSum(base[..20]);
    ComplementVerifies(SumOf(base[..20]));
  }

  lemma SomethingInSum(p: seq<Byte>)
    requires |p| >= 2 && p[0] > 0
    ensures SumOf(p) > 0
  {
  }

  lemma BuiltSegmentVerifies(src: Addr, dst: Addr, base: seq<Byte>, p: seq<Byte>)
    requires 28 <= |base| < 0x1_0000 && Word(base, 26) == 0
    requires p == Splice(Splice(base, 10, Bytes16(HeaderChecksum(base))), 26, Bytes16(UdpChecksum(src, dst, base)))
    requires WellFormed(p) && HeaderLen(p) == 20 && p[9] == PROTO_UDP
    requires AddrAt(p, 12) == src && AddrAt(p, 16) == dst
    ensures SegmentValid(p, |p|)
  {
    FilledDatagram(base, HeaderChecksum(base), UdpChecksum(src, dst, base));
    SumSlice(p, HeaderLen(p), |p|);
    assert p[HeaderLen(p)..|p|] == p[20..];
    PseudoSum(src, dst, |p| - 20);
    AddressSum(p);
    UdpFormVerifies(SumOf(Pseudo(src, dst, |p| - 20)) + SumOf(base[20..]));
  }

  /** UDP's incremental update refines UDP's fresh checksum, 0xffff for a computed zero included. */
  lemma AdjustUdpRefinesFresh(rest: nat, was: seq<Byte>, now: seq<Byte>)
    requires |was| == |now| && |was| % 2 == 0 && rest > 0
    ensures AdjustUdp(UdpForm(Complement(rest + SumOf(was))), was, now) == UdpForm(Complement(rest + SumOf(now)))
  {
    hide AdjustUdp, Complement;
    var sum := UdpForm(Complement(rest + SumOf(was)));
    var k := UndoLaws.AdjustUdpMod(sum, was, now);
    var v, w := AdjustUdp(sum, was, now), UdpForm(Complement(rest + SumOf(now)));
    var i := UdpFormMod(rest + SumOf(was));
    var j := UdpFormMod(rest + SumOf(now));
    SameInRange(v, w, k + i - j);
  }

  /** Two numbers from 1 to 65535 that differ by a multiple of 65535 are one. */
  lemma SameInRange(v: nat, w: nat, k: int)
    requires 1 <= v <= 65535 && 1 <= w <= 65535 && v - w == 65535 * k
    ensures v == w
  {
  }

  lemma UdpFormMod(total: nat) returns (k: int)
    ensures UdpForm(Complement(total)) == 65535 * k - total && UdpForm(Complement(total)) != 0
  {
    ModCong(Canon(total), total, 0 - total as int);
    var j := (Canon(total) - total) / 65535;
    assert Canon(total) == total + 65535 * j;
    k := if Complement(total) == 0 then 2 - j else 1 - j;
  }

  /** The header checksum of the packet built with another address is the adjusted one. */
  lemma BuiltHeaderAdjusts(p: seq<Byte>, field: Field, to: Addr)
    requires |p| >= 20 && p[0] > 0 && Word(p, 10) == 0
    ensures var was := AddrAt(p, field.Offset()).Octets();
      HeaderChecksum(Splice(p, field.Offset(), to.Octets())) == Adjust(HeaderChecksum(p), was, to.Octets())
  {
    var at, head := field.Offset(), p[..20];
    assert head[at..at + 4] == AddrAt(p, at).Octets();
    SumSplice(head, 0, |head|, at, to.Octets());
    UndoLaws.SplicePrefix(p, at, to.Octets(), 20);
    var rest := RestPositive(head, 0, |head|, at, 4, 10);
    AdjustRefinesFresh(rest, head[at..at + 4], to.Octets());
  }

  /**
   Incremental refines from-scratch: translating a packet the room check built is building it with
   the other address, byte for byte, for every payload a UDP length can hold.
   */
  lemma RewriteOfBuilt(src: Addr, dst: Addr, sport: U16, dport: U16, payload: seq<Byte>, field: Field, to: Addr)
    requires 28 + |payload| < 0x1_0000
    ensures Rewritten(UdpPacket(src, dst, sport, dport, payload), field, to)
         == if field == Src then UdpPacket(to, dst, sport, dport, payload)
            else UdpPacket(src, to, sport, dport, payload)
  {
    hide HeaderChecksum, UdpChecksum, Rewritten, RewrittenHeader, Adjust;
    var p, base := UdpPacket(src, dst, sport, dport, payload), Unsummed(src, dst, sport, dport, payload);
    var s', d' := if field == Src then to else src, if field == Src then dst else to;
    var base' := Unsummed(s', d', sport, dport, payload);
    BuiltShape(src, dst, sport, dport, payload);
    if Rewrites(p, field, to) {
      var at := field.Offset();
      var was, now := AddrAt(p, at).Octets(), to.Octets();
      BaseMoves(src, dst, sport, dport, payload, field, to);
      BuiltHeaderAdjusts(base, field, to);
      BuiltHeader(base, field, to, Word(p, 26));
      RewriteSegment(p, field, to);
      BuiltUdpAdjusts(src, dst, base, base', field, to);
      var h := Splice(base', 10, Bytes16(HeaderChecksum(base')));
      UndoLaws.SpliceTwice(h, 26, Bytes16(Word(p, 26)), Bytes16(UdpChecksum(s', d', base')));
    } else {
      assert s' == src && d' == dst;
      NothingToDo(p, field, to);
    }
  }

  lemma NothingToDo(p: seq<Byte>, field: Field, to: Addr)
    requires |p| > 0 && !Rewrites(p, field, to)
    ensures Rewritten(p, field, to) == p
  {
  }

  /** Before the checksums are filled in, another address is those four bytes. */
  lemma BaseMoves(src: Addr, dst: Addr, sport: U16, dport: U16, payload: seq<Byte>, field: Field, to: Addr)
    requires 28 + |payload| < 0x1_0000
    ensures Unsummed(if field == Src then to else src, if field == Src then dst else to, sport, dport, payload)
         == Splice(Unsummed(src, dst, sport, dport, payload), field.Offset(), to.Octets())
  {
    hide Datagram;
  }

  lemma BuiltHeader(base: seq<Byte>, field: Field, to: Addr, u: U16)
    requires |base| >= 28 && base[0] > 0 && Word(base, 10) == 0
    ensures var base' := Splice(base, field.Offset(), to.Octets());
      RewrittenHeader(Splice(Splice(base, 10, Bytes16(HeaderChecksum(base))), 26, Bytes16(u)), field, to)
      == Splice(Splice(base', 10, Bytes16(HeaderChecksum(base'))), 26, Bytes16(u))
  {
    var at, now, c := field.Offset(), to.Octets(), HeaderChecksum(base);
    var was := AddrAt(base, at).Octets();
    var x := Splice(base, 10, Bytes16(c));
    UndoLaws.HeaderPast(x, field, to, 26, Bytes16(u));
    BuiltHeaderAdjusts(base, field, to);
    SpliceOut(base, 10, Bytes16(c), at, at + 4);
    SameOctets(base, at, AddrAt(base, at));
    assert x[at..at + 4] == was;
    UndoLaws.SpliceCommute(base, 10, Bytes16(c), at, now);
    var y := Splice(base, at, now);
    assert Word(Splice(x, at, now), 10) == c;
    UndoLaws.SpliceTwice(y, 10, Bytes16(c), Bytes16(Adjust(c, was, now)));
  }

  lemma BuiltUdpAdjusts(src: Addr, dst: Addr, base: seq<Byte>, base': seq<Byte>, field: Field, to: Addr)
    requires 28 <= |base| < 0x1_0000 && base' == Splice(base, field.Offset(), to.Octets())
    ensures var was := (if field == Src then src else dst).Octets();
      UdpChecksum(if field == Src then to else src, if field == Src then dst else to, base')
      == AdjustUdp(UdpChecksum(src, dst, base), was, to.Octets())
  {
    var len := |base| - 20;
    var s', d' := if field == Src then to else src, if field == Src then dst else to;
    PseudoSum(src, dst, len);
    PseudoSum(s', d', len);
    SpliceOut(base, field.Offset(), to.Octets(), 20, |base|);
    assert base'[20..] == base'[20..|base|] == base[20..|base|] == base[20..];
    var other := (if field == Src then dst else src).Octets();
    AdjustUdpRefinesFresh(SumOf(other) + 17 + len + SumOf(base[20..]),
                          (if field == Src then src else dst).Octets(), to.Octets());
  }

  // ---------------------------------------------------------------- probes and answers

  const PROBE_TAG: seq<Byte> := [0x67, 0x62, 0x6c, 0x2d, 0x72, 0x6f, 0x6f, 0x6d, 0x2d, 0x63, 0x68, 0x65, 0x63, 0x6b,
                                 0x3f, 0x31]
  const REPLY_TAG: seq<Byte> := [0x67, 0x62, 0x6c, 0x2d, 0x72, 0x6f, 0x6f, 0x6d, 0x2d, 0x63, 0x68, 0x65, 0x63, 0x6b,
                                 0x21, 0x31]

  datatype Kind = Probe | Reply

  /** What a check packet says; its nonce is kept as eight bytes. */
  datatype CheckPacket = CheckPacket(kind: Kind, nonce: seq<Byte>, src: Addr, dst: Addr, sport: U16, dport: U16)

  /** A whole, unfragmented UDP datagram holding exactly a tag and a nonce. */
  function Parse(p: seq<Byte>): Option<CheckPacket> {
    match Endpoints(p)
    case None => None
    case Some((src, dst)) =>
      var ihl := HeaderLen(p);
      if p[9] != PROTO_UDP || Word(p, 6) % 0x4000 != 0 || |p| != ihl + 32 || Word(p, ihl + 4) != 32 then None
      else
        var tag, nonce := p[ihl + 8..ihl + 24], p[ihl + 24..ihl + 32];
        if tag == PROBE_TAG then Some(CheckPacket(Probe, nonce, src, dst, Word(p, ihl), Word(p, ihl + 2)))
        else if tag == REPLY_TAG then Some(CheckPacket(Reply, nonce, src, dst, Word(p, ihl), Word(p, ihl + 2)))
        else None
  }

  predicate IsProbe(p: seq<Byte>) { Parse(p).Some? && Parse(p).value.kind == Probe }

  /** The answer a member sends to a probe: to the probe's own source, and nobody else. */
  function Answer(p: seq<Byte>, own: Addr): Option<seq<Byte>> {
    match Parse(p)
    case None => None
    case Some(c) =>
      if c.kind != Probe || c.src == own then None
      else
        assert |c.nonce| == 8;
        Some(UdpPacket(own, c.src, c.dport, c.sport, REPLY_TAG + c.nonce))
  }

  lemma ReadBuilt(src: Addr, dst: Addr, sport: U16, dport: U16, tag: seq<Byte>, nonce: seq<Byte>)
    requires |nonce| == 8 && tag in {PROBE_TAG, REPLY_TAG}
    ensures Parse(UdpPacket(src, dst, sport, dport, tag + nonce))
         == Some(CheckPacket(if tag == PROBE_TAG then Probe else Reply, nonce, src, dst, sport, dport))
  {
    var payload := tag + nonce;
    var p := UdpPacket(src, dst, sport, dport, payload);
    BuiltShape(src, dst, sport, dport, payload);
    BuiltDatagram(src, dst, sport, dport, payload);
    assert p[28..44] == p[28..][..16] == tag;
    assert p[44..52] == p[28..][16..] == nonce;
  }

  lemma BuiltDatagram(src: Addr, dst: Addr, sport: U16, dport: U16, payload: seq<Byte>)
    requires 28 + |payload| < 0x1_0000
    ensures var p := UdpPacket(src, dst, sport, dport, payload);
      && Word(p, 20) == sport && Word(p, 22) == dport && Word(p, 24) == 8 + |payload| && p[28..] == payload
      && Word(p, 6) == 0
  {
    var p, base := UdpPacket(src, dst, sport, dport, payload), Unsummed(src, dst, sport, dport, payload);
    var c, u := Bytes16(HeaderChecksum(base)), Bytes16(UdpChecksum(src, dst, base));
    SpliceIndex(base, 10, c);
    SpliceIndex(Splice(base, 10, c), 26, u);
    BaseShape(src, dst, sport, dport, payload);
    var d := Datagram(sport, dport, payload);
    assert base[20..] == d;
    assert forall k :: 20 <= k < 26 ==> p[k] == base[k] == base[20..][k - 20];
    assert p[28..] == base[28..] == base[20..][8..] == d[8..] == payload;
  }

  /**
   An answer is a check packet its asker recognises: a reply with the probe's nonce, from the
   member to the probe's source, ports swapped, both checksums right; and it is no probe, so it is
   never answered in turn.
   */
  lemma AnswerMirrors(p: seq<Byte>, own: Addr)
    ensures Answer(p, own).Some? <==> IsProbe(p) && Parse(p).value.src != own
    ensures Answer(p, own).Some? ==>
      var c, a := Parse(p).value, Answer(p, own).value;
      && Parse(a) == Some(CheckPacket(Reply, c.nonce, own, c.src, c.dport, c.sport))
      && WellFormed(a) && IpHeaderValid(a) && SegmentValid(a, |a|)
  {
    if Answer(p, own).Some? {
      var c := Parse(p).value;
      ReadBuilt(own, c.src, c.dport, c.sport, REPLY_TAG, c.nonce);
      BuiltVerifies(own, c.src, c.dport, c.sport, REPLY_TAG + c.nonce);
    }
  }

  /** Every field of what is built: a 20-byte header with its total length, unfragmented, living 64 hops. */
  lemma BuiltFields(src: Addr, dst: Addr, sport: U16, dport: U16, payload: seq<Byte>)
    requires 28 + |payload| < 0x1_0000
    ensures var p := UdpPacket(src, dst, sport, dport, payload);
      && p[0] == 0x45 && p[1] == 0 && Word(p, 2) == |p| == 28 + |payload| && Word(p, 4) == 0 && Word(p, 6) == 0
      && p[8] == 64 && p[9] == 17 && AddrAt(p, 12) == src && AddrAt(p, 16) == dst
      && Word(p, 20) == sport && Word(p, 22) == dport && Word(p, 24) == 8 + |payload| && p[28..] == payload
  {
    BuiltDatagram(src, dst, sport, dport, payload);
    BuiltShape(src, dst, sport, dport, payload);
    var base := Unsummed(src, dst, sport, dport, payload);
    var c, u := Bytes16(HeaderChecksum(base)), Bytes16(UdpChecksum(src, dst, base));
    SpliceIndex(base, 10, c);
    SpliceIndex(Splice(base, 10, c), 26, u);
    var p, head := UdpPacket(src, dst, sport, dport, payload), Head(src, dst, 28 + |payload|);
    assert forall k :: 0 <= k < 10 ==> p[k] == base[k] == head[k];
  }
}
