/**
 Fragmented datagrams through the translator: every piece is rewritten on its own, yet the
 reassembled datagram's transport checksum verifies against the new pseudo-header.  And the DSCP
 mark the translator may add.
 */
module FragmentLaws {
  import opened Wire
  import opened Checksum
  import opened Ipv4
  import opened Rewrite
  import opened RewriteLaws

  function Payload(p: seq<Byte>): seq<Byte>
    requires WellFormed(p)
  {
    p[HeaderLen(p)..]
  }

  predicate AllWellFormed(pieces: seq<seq<Byte>>) {
    forall i :: 0 <= i < |pieces| ==> WellFormed(pieces[i])
  }

  /** What the receiver's reassembly hands its transport: the payloads, in offset order. */
  function Joined(pieces: seq<seq<Byte>>): seq<Byte>
    requires AllWellFormed(pieces)
  {
    if pieces == [] then [] else Payload(pieces[0]) + Joined(pieces[1..])
  }

  function Translated(pieces: seq<seq<Byte>>, field: Field, to: Addr): (r: seq<seq<Byte>>)
    requires AllWellFormed(pieces)
    ensures |r| == |pieces|
    ensures forall i :: 0 <= i < |pieces| ==> r[i] == Rewritten(pieces[i], field, to)
  {
    if pieces == [] then [] else [Rewritten(pieces[0], field, to)] + Translated(pieces[1..], field, to)
  }

  predicate Later(p: seq<Byte>) { WellFormed(p) && FragmentOffset(p) != 0 }

  predicate AllLater(pieces: seq<seq<Byte>>) {
    forall i :: 0 <= i < |pieces| ==> Later(pieces[i])
  }

  /** A datagram cut in pieces: the transport checksum is in the first, whose payload is whole words. */
  predicate Pieces(pieces: seq<seq<Byte>>) {
    && |pieces| > 0 && HasSegmentSum(pieces[0]) && |Payload(pieces[0])| % 2 == 0
    && (forall i :: 1 <= i < |pieces| ==> Later(pieces[i]) && SameEnds(pieces[i], pieces[0]))
  }

  predicate SameEnds(p: seq<Byte>, q: seq<Byte>)
    requires |p| >= 20 && |q| >= 20
  {
    AddrAt(p, 12) == AddrAt(q, 12) && AddrAt(p, 16) == AddrAt(q, 16)
  }

  lemma PiecesWellFormed(pieces: seq<seq<Byte>>)
    requires Pieces(pieces)
    ensures AllWellFormed(pieces)
    ensures AllLater(pieces[1..])
  {
  }

  /** The reassembled datagram verifies against the addresses its pieces carry. */
  predicate JoinedValid(pieces: seq<seq<Byte>>)
    requires Pieces(pieces)
  {
    PiecesWellFormed(pieces);
    var first, data := pieces[0], Joined(pieces);
    Verifies(Sum(first, 12, 20) + first[9] + |data| + SumOf(data))
  }

  /** A later piece carries no checksum: past its header nothing changes. */
  lemma LaterPieceKept(p: seq<Byte>, field: Field, to: Addr)
    requires Later(p)
    ensures var q := Rewritten(p, field, to);
      && Later(q) && Payload(q) == Payload(p)
      && AddrAt(q, field.Offset()) == to
      && AddrAt(q, field.Opposite().Offset()) == AddrAt(p, field.Opposite().Offset())
  {
    hide RewrittenHeader, IpHeaderValid;
    if Rewrites(p, field, to) {
      RewriteSteps(p, field, to);
      HeaderFacts(p, field, to);
      assert Rewritten(p, field, to) == RewrittenHeader(p, field, to);
      HeaderTail(p, field, to, HeaderLen(p), |p|);
      assert p[HeaderLen(p)..|p|] == Payload(p);
    }
  }

  lemma {:induction false} LaterPiecesKept(pieces: seq<seq<Byte>>, field: Field, to: Addr)
    requires AllLater(pieces)
    ensures AllLater(Translated(pieces, field, to))
    ensures Joined(Translated(pieces, field, to)) == Joined(pieces)
  {
    if pieces != [] {
      LaterPieceKept(pieces[0], field, to);
      LaterPiecesKept(pieces[1..], field, to);
      assert Translated(pieces, field, to)[1..] == Translated(pieces[1..], field, to);
    }
  }

  lemma SumConcat(a: seq<Byte>, b: seq<Byte>)
    requires |a| % 2 == 0
    ensures SumOf(a + b) == SumOf(a) + SumOf(b)
  {
    var s := a + b;
    SumSplit(s, 0, |a|, |s|);
    SumSlice(s, 0, |a|);
    SumSlice(s, |a|, |s|);
    assert s[0..|a|] == a && s[|a|..|s|] == b;
  }

  /** The first piece's payload: one checksum adjusted. */
  lemma FirstPieceSum(p: seq<Byte>, field: Field, to: Addr)
    requires HasSegmentSum(p) && Rewrites(p, field, to)
    ensures var q, at := Rewritten(p, field, to), SegmentSumAt(p);
      && WellFormed(q) && |Payload(q)| == |Payload(p)|
      && SumOf(Payload(q)) == SumOf(Payload(p)) - Word(p, at)
           + AdjustTransport(p[9], Word(p, at), AddrAt(p, field.Offset()).Octets(), to.Octets())
  {
    var q := Rewritten(p, field, to);
    SegmentShape(p, field, to);
    BodyAfter(p, field, to, |p|);
    SumSlice(p, HeaderLen(p), |p|);
    SumSlice(q, HeaderLen(p), |p|);
    assert p[HeaderLen(p)..|p|] == Payload(p) && q[HeaderLen(p)..|p|] == Payload(q);
  }

  lemma FirstPieceRest(p: seq<Byte>, field: Field) returns (rest: nat)
    requires HasSegmentSum(p)
    ensures rest > 0
    ensures Sum(p, 12, 20) + p[9] + SumOf(Payload(p))
         == rest + SumOf(AddrAt(p, field.Offset()).Octets()) + Word(p, SegmentSumAt(p))
  {
    rest := SegmentRest(p, field.Offset(), SegmentSumAt(p), |p|);
    SumSlice(p, HeaderLen(p), |p|);
    assert p[HeaderLen(p)..|p|] == Payload(p);
    var length := |p| - HeaderLen(p);
    SumSplit(p, 12, 16, 20);
    SumSlice(p, 12, 16);
    SumSlice(p, 16, 20);
    assert p[12..16] == AddrAt(p, 12).Octets() && p[16..20] == AddrAt(p, 16).Octets();
    SumSplit(p, HeaderLen(p), SegmentSumAt(p), |p|);
    SumSplit(p, SegmentSumAt(p), SegmentSumAt(p) + 2, |p|);
    SumSlice(p, SegmentSumAt(p), SegmentSumAt(p) + 2);
    WordSum(p, SegmentSumAt(p));
    rest := rest - length;
  }

  lemma FirstShape(p: seq<Byte>, field: Field, to: Addr)
    requires HasSegmentSum(p)
    ensures var q := Rewritten(p, field, to);
      && HasSegmentSum(q) && |Payload(q)| == |Payload(p)| && AddrAt(q, field.Offset()) == to
      && AddrAt(q, field.Opposite().Offset()) == AddrAt(p, field.Opposite().Offset())
  {
    RewriteKeepsIpHeader(p, field, to);
    if Rewrites(p, field, to) {
      SegmentShape(p, field, to);
    }
  }

  lemma {:induction false} PiecesShape(pieces: seq<seq<Byte>>, field: Field, to: Addr)
    requires Pieces(pieces)
    ensures AllWellFormed(pieces)
    ensures var r := Translated(pieces, field, to);
      && Pieces(r) && AddrAt(r[0], field.Offset()) == to && AllWellFormed(r)
      && Joined(r) == Payload(r[0]) + Joined(pieces[1..])
  {
    PiecesWellFormed(pieces);
    var r := Translated(pieces, field, to);
    FirstShape(pieces[0], field, to);
    forall i | 1 <= i < |r| ensures Later(r[i]) && SameEnds(r[i], r[0]) {
      assert SameEnds(pieces[i], pieces[0]);
      LaterPieceKept(pieces[i], field, to);
    }
    LaterPiecesKept(pieces[1..], field, to);
    assert r[1..] == Translated(pieces[1..], field, to);
  }

  /**
   Translating every piece of a datagram translates the datagram: the pieces stay one datagram
   between the new addresses, and its TCP or UDP checksum still verifies.
   */
  lemma {:induction false} PiecesTranslateAsOne(pieces: seq<seq<Byte>>, field: Field, to: Addr)
    requires Pieces(pieces) && JoinedValid(pieces)
    ensures AllWellFormed(pieces)
    ensures var r := Translated(pieces, field, to);
      Pieces(r) && JoinedValid(r) && AddrAt(r[0], field.Offset()) == to
  {
    hide AdjustTransport, Rewritten;
    PiecesShape(pieces, field, to);
    var r := Translated(pieces, field, to);
    var p, tail := pieces[0], Joined(pieces[1..]);
    SumConcat(Payload(p), tail);
    if Rewrites(p, field, to) {
      SegmentShape(p, field, to);
      SumConcat(Payload(r[0]), tail);
      FirstPieceVerifies(p, field, to, |Joined(pieces)| + SumOf(tail));
    } else {
      NothingRewritten(p, field, to);
    }
  }

  /** The first piece's sums, with whatever the other pieces and the length add. */
  lemma {:induction false} FirstPieceVerifies(p: seq<Byte>, field: Field, to: Addr, others: nat)
    requires HasSegmentSum(p) && Rewrites(p, field, to)
    requires Verifies(Sum(p, 12, 20) + p[9] + SumOf(Payload(p)) + others)
    ensures var q := Rewritten(p, field, to);
      WellFormed(q) && q[9] == p[9] && Verifies(Sum(q, 12, 20) + q[9] + SumOf(Payload(q)) + others)
  {
    hide AdjustTransport, Rewritten;
    SegmentShape(p, field, to);
    FirstPieceSum(p, field, to);
    PseudoAfter(p, field, to);
    var rest := FirstPieceRest(p, field);
    AdjustTransportKeeps(p[9], rest + others, Word(p, SegmentSumAt(p)), AddrAt(p, field.Offset()).Octets(),
                         to.Octets());
  }

  // ---------------------------------------------------------------- the DSCP mark

  /** Marking keeps the congestion bits, every byte but those it must change, and the header's checksum right. */
  lemma DscpKeeps(p: seq<Byte>, dscp: nat)
    requires WellFormed(p) && dscp < 64
    ensures var q := WithDscp(p, dscp);
      && WellFormed(q) && (IpHeaderValid(p) ==> IpHeaderValid(q))
      && q[1] as int / 4 == dscp && q[1] as int % 4 == p[1] as int % 4
      && forall k :: 0 <= k < |p| && k !in {1, 10, 11} ==> q[k] == p[k]
  {
    if IpHeaderValid(p) {
      DscpKeepsHeader(p, dscp);
    }
  }

  lemma DscpKeepsHeader(p: seq<Byte>, dscp: nat)
    requires WellFormed(p) && IpHeaderValid(p) && dscp < 64
    ensures Verifies(Sum(WithDscp(p, dscp), 0, HeaderLen(p)))
  {
    var now: seq<Byte> := [p[0], dscp * 4 + p[1] as int % 4];
    var s, ihl := Splice(p, 0, now), HeaderLen(p);
    assert Word(s, 10) == Word(p, 10);
    DscpSums(p, ihl, now, Adjust(Word(p, 10), p[0..2], now));
    var rest := DscpRest(p, ihl);
    assert SumOf(now) > 0 by {
      assert now[0] > 0;
      assert Sum(now, 2, 2) == 0;
    }
    AdjustKeepsVerifying(rest, Word(p, 10), p[0..2], now);
  }

  lemma {:induction false} DscpSums(p: seq<Byte>, ihl: nat, now: seq<Byte>, c: U16)
    requires 12 <= ihl <= |p| && |now| == 2
    ensures Sum(Splice(Splice(p, 0, now), 10, Bytes16(c)), 0, ihl)
         == Sum(p, 0, ihl) - SumOf(p[0..2]) + SumOf(now) - Word(p, 10) + c
  {
    var s := Splice(p, 0, now);
    SumSplice(p, 0, ihl, 0, now);
    SumSplice(s, 0, ihl, 10, Bytes16(c));
    SumBytes16(c);
    assert s[10..12] == p[10..12];
    WordSum(p, 10);
  }

  lemma DscpRest(p: seq<Byte>, ihl: nat) returns (rest: nat)
    requires 12 <= ihl <= |p|
    ensures Sum(p, 0, ihl) == rest + SumOf(p[0..2]) + Word(p, 10)
  {
    SumSplit(p, 0, 2, ihl);
    SumSplit(p, 2, 10, ihl);
    SumSplit(p, 10, 12, ihl);
    SumSlice(p, 0, 2);
    SumSlice(p, 10, 12);
    WordSum(p, 10);
    rest := Sum(p, 0, ihl) - SumOf(p[0..2]) - Word(p, 10);
  }
}
