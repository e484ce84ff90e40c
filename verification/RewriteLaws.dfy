/**
 What a rewrite keeps: every checksum of a packet that verified before it verifies after it, at
 every layer, and undoing a rewrite restores the packet.
 */
module RewriteLaws {
  import opened Wire
  import opened Checksum
  import opened Ipv4
  import opened Rewrite

  /** An IPv4 packet holding its whole header. */
  predicate WellFormed(p: seq<Byte>) { Endpoints(p).Some? && |p| >= HeaderLen(p) }

  predicate IpHeaderValid(p: seq<Byte>)
    requires WellFormed(p)
  {
    Verifies(Sum(p, 0, HeaderLen(p)))
  }

  /** The sum TCP and UDP cover: pseudo-header (addresses, protocol, length) and `p[ihl..end]`. */
  function SegmentSum(p: seq<Byte>, end: nat): nat
    requires WellFormed(p) && HeaderLen(p) <= end <= |p|
  {
    Sum(p, 12, 20) + p[9] + (end - HeaderLen(p)) + Sum(p, HeaderLen(p), end)
  }

  predicate SegmentValid(p: seq<Byte>, end: nat)
    requires WellFormed(p) && HeaderLen(p) <= end <= |p|
  {
    Verifies(SegmentSum(p, end))
  }

  predicate IcmpValid(p: seq<Byte>, end: nat)
    requires WellFormed(p) && HeaderLen(p) <= end <= |p|
  {
    Verifies(Sum(p, HeaderLen(p), end))
  }

  // ---------------------------------------------------------------- one edit

  /** Overwriting aligned bytes and adjusting an aligned checksum keeps what they lie in verifying. */
  lemma {:induction false} FixKeeps(p: seq<Byte>, from: nat, end: nat, at: nat, bytes: seq<Byte>, ck: nat)
    requires from + 2 <= at && at + |bytes| <= end <= |p| && |bytes| in {2, 4}
    requires from + 2 <= ck && ck + 2 <= end && (ck + 2 <= at || at + |bytes| <= ck)
    requires (at - from) % 2 == 0 && (ck - from) % 2 == 0
    requires p[from] > 0
    requires Verifies(Sum(p, from, end))
    ensures Verifies(Sum(Changed(p, ck, at, bytes), from, end))
  {
    hide Adjust;
    var was, sum := p[at..at + |bytes|], Word(p, ck);
    var s := Splice(p, at, bytes);
    SumSplice(p, from, end, at, bytes);
    SpliceOut(p, at, bytes, ck, ck + 2);
    SumSplice(s, from, end, ck, Bytes16(Adjust(sum, was, bytes)));
    SumBytes16(Adjust(sum, was, bytes));
    WordSum(p, ck);
    var rest := RestPositive(p, from, end, at, |bytes|, ck);
    AdjustKeepsVerifying(rest, sum, was, bytes);
  }

  /** Something besides the edited bytes and the checksum is in the sum. */
  lemma RestPositive(p: seq<Byte>, from: nat, end: nat, at: nat, n: nat, ck: nat) returns (rest: nat)
    requires from + 2 <= at && at + n <= end <= |p| && n in {2, 4}
    requires from + 2 <= ck && ck + 2 <= end && (ck + 2 <= at || at + n <= ck)
    requires (at - from) % 2 == 0 && (ck - from) % 2 == 0
    requires p[from] > 0
    ensures rest > 0 && Sum(p, from, end) == rest + SumOf(p[at..at + n]) + Word(p, ck)
  {
    hide Splice, Sum;
    var zeros: seq<Byte> := if n == 2 then [0, 0] else [0, 0, 0, 0];
    ZeroSum(zeros);
    ZeroSum([0, 0]);
    var s := Splice(p, at, zeros);
    SumSplice(p, from, end, at, zeros);
    SpliceOut(p, at, zeros, ck, ck + 2);
    SumSplice(s, from, end, ck, [0, 0]);
    var z := Splice(s, ck, [0, 0]);
    SpliceIndex(p, at, zeros);
    SpliceIndex(s, ck, [0, 0]);
    FirstWord(z, from, end);
    rest := Sum(z, from, end);
    WordSum(p, ck);
  }

  lemma ZeroSum(zeros: seq<Byte>)
    requires zeros in {[0, 0], [0, 0, 0, 0]}
    ensures SumOf(zeros) == 0
  {
    var n := |zeros|;
    assert Sum(zeros, n, n) == 0;
    assert Sum(zeros, n - 2, n) == 0;
  }

  lemma {:induction false} FirstWord(p: seq<Byte>, from: nat, end: nat)
    requires from + 2 <= end <= |p| && p[from] > 0
    ensures Sum(p, from, end) > 0
  {
  }

  // ---------------------------------------------------------------- the header

  lemma HeaderFacts(p: seq<Byte>, field: Field, to: Addr)
    requires WellFormed(p)
    ensures var h := RewrittenHeader(p, field, to);
      && h[..10] == p[..10] && h[20..] == p[20..] && WellFormed(h)
      && AddrAt(h, field.Offset()) == to
      && AddrAt(h, field.Opposite().Offset()) == AddrAt(p, field.Opposite().Offset())
      && h == Changed(p, 10, field.Offset(), to.Octets())
      && (IpHeaderValid(p) ==> IpHeaderValid(h))
  {
    hide Adjust;
    var at, h := field.Offset(), RewrittenHeader(p, field, to);
    ChangedOut(p, 10, at, to.Octets(), 0, 10);
    ChangedOut(p, 10, at, to.Octets(), 20, |p|);
    SliceIndex(h, p, 0, 10);
    var s := Splice(p, at, to.Octets());
    SpliceOut(s, 10, Bytes16(Adjust(Word(s, 10), p[at..at + 4], to.Octets())), 12, 20);
    SliceIndex(h, s, 12, 20);
    SpliceIndex(p, at, to.Octets());
    if IpHeaderValid(p) {
      FixKeeps(p, 0, HeaderLen(p), field.Offset(), to.Octets(), 10);
    }
  }

  lemma ChangedOut(p: seq<Byte>, ck: nat, at: nat, bytes: seq<Byte>, i: nat, j: nat)
    requires ck + 2 <= |p| && at + |bytes| <= |p| && |bytes| % 2 == 0 && i <= j <= |p|
    requires (j <= at || at + |bytes| <= i) && (j <= ck || ck + 2 <= i)
    ensures Changed(p, ck, at, bytes)[i..j] == p[i..j]
  {
    var s := Splice(p, at, bytes);
    SpliceOut(p, at, bytes, i, j);
    SpliceOut(s, ck, Bytes16(Adjust(Word(s, ck), p[at..at + |bytes|], bytes)), i, j);
  }

  /** Past the header nothing touches the header. */
  lemma BodyKeepsHeader(p: seq<Byte>, field: Field, was: seq<Byte>, now: seq<Byte>)
    requires WellFormed(p) && |was| == |now| == 4
    ensures RewrittenBody(p, HeaderLen(p), field, was, now)[..HeaderLen(p)] == p[..HeaderLen(p)]
  {
    var ihl := HeaderLen(p);
    var q := RewrittenBody(p, ihl, field, was, now);
    if FragmentOffset(p) == 0 && p[9] == PROTO_ICMP && |p| >= ihl + 28 && IsIcmpError(p[ihl]) {
      QuotedKeepsHeader(p, ihl, field.Opposite(), was, now);
    }
  }

  /** Of an ICMP message, only its checksum and what it quotes change. */
  lemma QuotedKeepsHeader(p: seq<Byte>, ihl: nat, field: Field, was: seq<Byte>, now: seq<Byte>)
    requires |p| >= ihl + 28 && |was| == |now| == 4
    ensures RewrittenQuoted(p, ihl, field, was, now)[..ihl + 2] == p[..ihl + 2]
    ensures RewrittenQuoted(p, ihl, field, was, now)[ihl + 4..ihl + 8] == p[ihl + 4..ihl + 8]
  {
    QuotedOut(p, ihl, field, was, now, 0, ihl + 2);
    QuotedOut(p, ihl, field, was, now, ihl + 4, ihl + 8);
  }

  lemma QuotedOut(p: seq<Byte>, ihl: nat, field: Field, was: seq<Byte>, now: seq<Byte>, i: nat, j: nat)
    requires |p| >= ihl + 28 && |was| == |now| == 4
    requires i <= j && (j <= ihl + 2 || (ihl + 4 <= i && j <= ihl + 8))
    ensures RewrittenQuoted(p, ihl, field, was, now)[i..j] == p[i..j]
  {
    hide Adjust, Changed, RewrittenQuotedTransport;
    if Quotes(p, ihl, field, was) {
      var at := ihl + 8 + field.Offset();
      var q := Changed(p, ihl + 2, at, now);
      ChangedOut(p, ihl + 2, at, now, i, j);
      ChangedOut(q, ihl + 2, ihl + 18, Bytes16(Adjust(Word(q, ihl + 18), was, now)), i, j);
      QuotedTransportOut(RewrittenQuotedHeader(p, ihl, field, was, now), ihl, was, now, i, j);
    }
  }

  lemma QuotedTransportOut(p: seq<Byte>, ihl: nat, was: seq<Byte>, now: seq<Byte>, i: nat, j: nat)
    requires |p| >= ihl + 28 && |was| == |now| == 4
    requires i <= j && (j <= ihl + 2 || (ihl + 4 <= i && j <= ihl + 8))
    ensures RewrittenQuotedTransport(p, ihl, was, now)[i..j] == p[i..j]
  {
    match QuotedSumAt(p, ihl)
    case None =>
    case Some(at) =>
      ChangedOut(p, ihl + 2, at, Bytes16(AdjustTransport(p[ihl + 17], Word(p, at), was, now)), i, j);
  }

  /** The whole rewrite, header first. */
  lemma RewriteSteps(p: seq<Byte>, field: Field, to: Addr)
    requires WellFormed(p) && Rewrites(p, field, to)
    ensures var h := RewrittenHeader(p, field, to);
      && WellFormed(h) && HeaderLen(h) == HeaderLen(p) && h[9] == p[9] && FragmentOffset(h) == FragmentOffset(p)
      && Rewritten(p, field, to)
         == RewrittenBody(h, HeaderLen(h), field, AddrAt(p, field.Offset()).Octets(), to.Octets())
      && Rewritten(p, field, to)[..HeaderLen(p)] == h[..HeaderLen(p)]
      && p[field.Offset()..field.Offset() + 4] == AddrAt(p, field.Offset()).Octets()
  {
    HeaderFacts(p, field, to);
    var h := RewrittenHeader(p, field, to);
    var at := field.Offset();
    assert p[at..at + 4] == AddrAt(p, at).Octets();
    assert forall k :: 0 <= k < 10 ==> h[k] == h[..10][k] == p[..10][k];
    BodyKeepsHeader(h, field, p[at..at + 4], to.Octets());
  }

  /** A rewrite puts the address in and leaves the IP header's checksum right. */
  lemma RewriteKeepsIpHeader(p: seq<Byte>, field: Field, to: Addr)
    requires WellFormed(p)
    ensures var q := Rewritten(p, field, to);
      && WellFormed(q) && q[..10] == p[..10]
      && AddrAt(q, field.Offset()) == to
      && AddrAt(q, field.Opposite().Offset()) == AddrAt(p, field.Opposite().Offset())
      && (IpHeaderValid(p) ==> IpHeaderValid(q))
  {
    if Rewrites(p, field, to) {
      RewriteSteps(p, field, to);
      HeaderFacts(p, field, to);
      SameHeader(RewrittenHeader(p, field, to), Rewritten(p, field, to));
    }
  }

  /** Everything read from a header is the same when its bytes are. */
  lemma SameHeader(h: seq<Byte>, q: seq<Byte>)
    requires WellFormed(h) && |q| == |h| && q[..HeaderLen(h)] == h[..HeaderLen(h)]
    ensures WellFormed(q) && HeaderLen(q) == HeaderLen(h) && q[..10] == h[..10] && q[9] == h[9]
    ensures FragmentOffset(q) == FragmentOffset(h) && IpHeaderValid(q) == IpHeaderValid(h)
    ensures AddrAt(q, 12) == AddrAt(h, 12) && AddrAt(q, 16) == AddrAt(h, 16)
  {
    var ihl := HeaderLen(h);
    assert forall k :: 0 <= k < ihl ==> q[k] == q[..ihl][k] == h[..ihl][k];
    assert q[0..ihl] == q[..ihl] && h[0..ihl] == h[..ihl];
    SumSame(q, 0, h, 0, ihl);
  }

  // ---------------------------------------------------------------- TCP and UDP

  /** Where the transport checksum of a whole datagram or first piece is. */
  function SegmentSumAt(p: seq<Byte>): nat
    requires WellFormed(p)
  {
    HeaderLen(p) + if p[9] == PROTO_UDP then 6 else 16
  }

  /** A TCP or UDP header that holds its checksum, and for UDP has one. */
  predicate HasSegmentSum(p: seq<Byte>) {
    && WellFormed(p) && FragmentOffset(p) == 0 && p[9] in {PROTO_TCP, PROTO_UDP}
    && |p| >= HeaderLen(p) + (if p[9] == PROTO_UDP then 8 else 18)
    && (p[9] == PROTO_UDP ==> Word(p, SegmentSumAt(p)) != 0)
  }

  /** Past the header a TCP or UDP rewrite changes the checksum, and nothing else. */
  lemma RewriteSegment(p: seq<Byte>, field: Field, to: Addr)
    requires HasSegmentSum(p) && Rewrites(p, field, to)
    ensures var h, at := RewrittenHeader(p, field, to), SegmentSumAt(p);
      && Word(h, at) == Word(p, at)
      && Rewritten(p, field, to) == Splice(h, at, Bytes16(AdjustTransport(p[9], Word(p, at),
           AddrAt(p, field.Offset()).Octets(), to.Octets())))
  {
    RewriteSteps(p, field, to);
    HeaderFacts(p, field, to);
    var h, at := RewrittenHeader(p, field, to), SegmentSumAt(p);
    assert h[at] == h[20..][at - 20] && h[at + 1] == h[20..][at - 19];
  }

  /** Adjusting a transport checksum keeps `rest + addresses + checksum` verifying, UDP's 0xffff included. */
  lemma AdjustTransportKeeps(protocol: Byte, rest: nat, sum: U16, was: seq<Byte>, now: seq<Byte>)
    requires |was| == |now| && |was| % 2 == 0 && rest > 0 && (protocol == PROTO_UDP ==> sum != 0)
    requires Verifies(rest + SumOf(was) + sum)
    ensures Verifies(rest + SumOf(now) + AdjustTransport(protocol, sum, was, now))
  {
    AdjustKeepsVerifying(rest, sum, was, now);
    VerifiesIff(rest + SumOf(now) + Adjust(sum, was, now));
    ModAdd(rest + SumOf(now), 1);
    VerifiesIff(rest + SumOf(now) + AdjustTransport(protocol, sum, was, now));
  }

  /** A rewritten segment is read like the segment it was. */
  lemma SegmentShape(p: seq<Byte>, field: Field, to: Addr)
    requires HasSegmentSum(p) && Rewrites(p, field, to)
    ensures var q := Rewritten(p, field, to);
      && WellFormed(q) && HeaderLen(q) == HeaderLen(p) && q[9] == p[9] && SegmentSumAt(q) == SegmentSumAt(p)
      && Word(q, SegmentSumAt(p)) == AdjustTransport(p[9], Word(p, SegmentSumAt(p)),
           AddrAt(p, field.Offset()).Octets(), to.Octets())
      && HasSegmentSum(q)
  {
    RewriteSteps(p, field, to);
    RewriteSegment(p, field, to);
    SameHeader(RewrittenHeader(p, field, to), Rewritten(p, field, to));
  }

  /** The pseudo-header's addresses. */
  lemma {:induction false} PseudoAfter(p: seq<Byte>, field: Field, to: Addr)
    requires HasSegmentSum(p) && Rewrites(p, field, to)
    ensures Sum(Rewritten(p, field, to), 12, 20)
         == Sum(p, 12, 20) - SumOf(AddrAt(p, field.Offset()).Octets()) + SumOf(to.Octets())
  {
    RewriteSteps(p, field, to);
    PseudoRewritten(p, field, to);
    var h, q := RewrittenHeader(p, field, to), Rewritten(p, field, to);
    assert h[12..20] == h[..HeaderLen(p)][12..20] == q[..HeaderLen(p)][12..20] == q[12..20];
    SumSame(h, 12, q, 12, 8);
  }

  /** The segment itself. */
  lemma {:induction false} BodyAfter(p: seq<Byte>, field: Field, to: Addr, end: nat)
    requires HasSegmentSum(p) && Rewrites(p, field, to) && SegmentSumAt(p) + 2 <= end <= |p|
    ensures var at := SegmentSumAt(p);
      Sum(Rewritten(p, field, to), HeaderLen(p), end) == Sum(p, HeaderLen(p), end) - Word(p, at)
        + AdjustTransport(p[9], Word(p, at), AddrAt(p, field.Offset()).Octets(), to.Octets())
  {
    hide AdjustTransport, RewrittenHeader, Rewritten;
    RewriteSegment(p, field, to);
    var h, at, ihl := RewrittenHeader(p, field, to), SegmentSumAt(p), HeaderLen(p);
    var sum := AdjustTransport(p[9], Word(p, at), AddrAt(p, field.Offset()).Octets(), to.Octets());
    HeaderTail(p, field, to, ihl, end);
    SumSame(h, ihl, p, ihl, end - ihl);
    SumSplice(h, ihl, end, at, Bytes16(sum));
    SumBytes16(sum);
    WordSum(h, at);
  }

  lemma NothingRewritten(p: seq<Byte>, field: Field, to: Addr)
    requires |p| > 0 && !Rewrites(p, field, to)
    ensures Rewritten(p, field, to) == p
  {
  }

  /**
   TCP's and UDP's checksum, over a pseudo-header holding the new address, verifies after a
   rewrite if it did before, wherever the segment ends; UDP's never becomes "none".
   */
  lemma RewriteKeepsSegment(p: seq<Byte>, field: Field, to: Addr, end: nat)
    requires HasSegmentSum(p) && SegmentSumAt(p) + 2 <= end <= |p| && SegmentValid(p, end)
    ensures var q := Rewritten(p, field, to);
      HasSegmentSum(q) && SegmentSumAt(q) == SegmentSumAt(p) && SegmentValid(q, end)
  {
    hide AdjustTransport, Rewritten;
    if Rewrites(p, field, to) {
      var at := SegmentSumAt(p);
      SegmentShape(p, field, to);
      PseudoAfter(p, field, to);
      BodyAfter(p, field, to, end);
      var rest := SegmentRest(p, field.Offset(), at, end);
      AdjustTransportKeeps(p[9], rest, Word(p, at), AddrAt(p, field.Offset()).Octets(), to.Octets());
    } else {
      NothingRewritten(p, field, to);
    }
  }

  lemma HeaderTail(p: seq<Byte>, field: Field, to: Addr, i: nat, j: nat)
    requires WellFormed(p) && 20 <= i <= j <= |p|
    ensures RewrittenHeader(p, field, to)[i..j] == p[i..j]
  {
    ChangedOut(p, 10, field.Offset(), to.Octets(), i, j);
  }

  lemma {:induction false} PseudoRewritten(p: seq<Byte>, field: Field, to: Addr)
    requires WellFormed(p)
    ensures Sum(RewrittenHeader(p, field, to), 12, 20)
         == Sum(p, 12, 20) - SumOf(AddrAt(p, field.Offset()).Octets()) + SumOf(to.Octets())
  {
    var at := field.Offset();
    var s := Splice(p, at, to.Octets());
    assert p[at..at + 4] == AddrAt(p, at).Octets();
    SumSplice(p, 12, 20, at, to.Octets());
    SumSpliceOutside(s, 12, 20, 10, Bytes16(Adjust(Word(s, 10), p[at..at + 4], to.Octets())));
  }

  /** A segment's sum less the address and the checksum. */
  lemma SegmentRest(p: seq<Byte>, off: nat, at: nat, end: nat) returns (rest: nat)
    requires WellFormed(p) && p[9] > 0 && off in {12, 16}
    requires HeaderLen(p) <= at && at + 2 <= end <= |p| && (at - HeaderLen(p)) % 2 == 0
    ensures rest > 0 && SegmentSum(p, end) == rest + SumOf(AddrAt(p, off).Octets()) + Word(p, at)
  {
    var ihl := HeaderLen(p);
    assert p[off..off + 4] == AddrAt(p, off).Octets();
    SumSplit(p, 12, 16, 20);
    SumSlice(p, 12, 16);
    SumSlice(p, 16, 20);
    SumSplit(p, ihl, at, end);
    SumSplit(p, at, at + 2, end);
    SumSlice(p, at, at + 2);
    WordSum(p, at);
    rest := SegmentSum(p, end) - SumOf(AddrAt(p, off).Octets()) - Word(p, at);
  }
}
