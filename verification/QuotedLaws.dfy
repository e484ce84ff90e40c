/**
 ICMP errors through the translator: the ICMP checksum survives up to three nested edits, the
 quoted packet is translated exactly as that packet would be, and an error about a translated
 packet comes back quoting the packet the program sent.
 */
module QuotedLaws {
  import opened Wire
  import opened Checksum
  import opened Ipv4
  import opened Rewrite
  import opened RewriteLaws

  /** An ICMP error with room for a quoted header. */
  predicate IsError(p: seq<Byte>) {
    && WellFormed(p) && FragmentOffset(p) == 0 && p[9] == PROTO_ICMP
    && |p| >= HeaderLen(p) + 28 && IsIcmpError(p[HeaderLen(p)])
  }

  function Quoted(p: seq<Byte>): seq<Byte>
    requires IsError(p)
  {
    p[HeaderLen(p) + 8..]
  }

  /** One nested edit keeps the ICMP checksum right. */
  lemma {:induction false} ChangeKeepsIcmp(p: seq<Byte>, ihl: nat, at: nat, bytes: seq<Byte>)
    requires ihl + 8 <= at && at + |bytes| <= |p| && |bytes| in {2, 4} && (at - ihl) % 2 == 0
    requires p[ihl] > 0 && Verifies(Sum(p, ihl, |p|))
    ensures Verifies(Sum(Changed(p, ihl + 2, at, bytes), ihl, |p|))
    ensures Changed(p, ihl + 2, at, bytes)[ihl] == p[ihl]
  {
    FixKeeps(p, ihl, |p|, at, bytes, ihl + 2);
    ChangedOut(p, ihl + 2, at, bytes, 0, ihl + 1);
    assert Changed(p, ihl + 2, at, bytes)[ihl] == Changed(p, ihl + 2, at, bytes)[0..ihl + 1][ihl];
  }

  lemma {:induction false} QuotedTransportKeepsIcmp(p: seq<Byte>, ihl: nat, was: seq<Byte>, now: seq<Byte>)
    requires |p| >= ihl + 28 && |was| == |now| == 4
    requires p[ihl] > 0 && Verifies(Sum(p, ihl, |p|))
    ensures Verifies(Sum(RewrittenQuotedTransport(p, ihl, was, now), ihl, |p|))
  {
    match QuotedSumAt(p, ihl)
    case None =>
    case Some(at) =>
      ChangeKeepsIcmp(p, ihl, at, Bytes16(AdjustTransport(p[ihl + 17], Word(p, at), was, now)));
  }

  lemma {:induction false} QuotedHeaderKeepsIcmp(p: seq<Byte>, ihl: nat, field: Field, was: seq<Byte>, now: seq<Byte>)
    requires |p| >= ihl + 28 && |was| == |now| == 4
    requires p[ihl] > 0 && Verifies(Sum(p, ihl, |p|))
    ensures var q := RewrittenQuotedHeader(p, ihl, field, was, now);
      q[ihl] == p[ihl] && Verifies(Sum(q, ihl, |p|))
  {
    var at := ihl + 8 + field.Offset();
    ChangeKeepsIcmp(p, ihl, at, now);
    var q := Changed(p, ihl + 2, at, now);
    ChangeKeepsIcmp(q, ihl, ihl + 18, Bytes16(Adjust(Word(q, ihl + 18), was, now)));
  }

  lemma {:induction false} QuotedKeepsIcmp(p: seq<Byte>, ihl: nat, field: Field, was: seq<Byte>, now: seq<Byte>)
    requires |p| >= ihl + 28 && |was| == |now| == 4
    requires p[ihl] > 0 && Verifies(Sum(p, ihl, |p|))
    ensures Verifies(Sum(RewrittenQuoted(p, ihl, field, was, now), ihl, |p|))
  {
    if Quotes(p, ihl, field, was) {
      QuotedHeaderKeepsIcmp(p, ihl, field, was, now);
      QuotedTransportKeepsIcmp(RewrittenQuotedHeader(p, ihl, field, was, now), ihl, was, now);
    }
  }

  /** A rewritten error: its header, then what it quotes. */
  lemma ErrorSteps(p: seq<Byte>, field: Field, to: Addr)
    requires IsError(p) && Rewrites(p, field, to)
    ensures var h, ihl := RewrittenHeader(p, field, to), HeaderLen(p);
      && h[ihl..] == p[ihl..]
      && Rewritten(p, field, to)
         == RewrittenQuoted(h, ihl, field.Opposite(), AddrAt(p, field.Offset()).Octets(), to.Octets())
  {
    hide RewrittenQuoted, Adjust;
    RewriteSteps(p, field, to);
    var h, ihl := RewrittenHeader(p, field, to), HeaderLen(p);
    HeaderTail(p, field, to, ihl, |p|);
    assert h[ihl] == h[ihl..|p|][0] == p[ihl];
  }

  lemma ErrorShape(p: seq<Byte>, field: Field, to: Addr)
    requires IsError(p)
    ensures IsError(Rewritten(p, field, to)) && HeaderLen(Rewritten(p, field, to)) == HeaderLen(p)
  {
    if Rewrites(p, field, to) {
      RewriteSteps(p, field, to);
      ErrorSteps(p, field, to);
      var h, q, ihl := RewrittenHeader(p, field, to), Rewritten(p, field, to), HeaderLen(p);
      SameHeader(h, q);
      QuotedKeepsHeader(h, ihl, field.Opposite(), AddrAt(p, field.Offset()).Octets(), to.Octets());
      assert q[ihl] == q[..ihl + 2][ihl] == h[..ihl + 2][ihl] == h[ihl..][0];
    }
  }

  /** The ICMP checksum of an error that verified verifies after a rewrite, whatever it quotes. */
  lemma RewriteKeepsIcmp(p: seq<Byte>, field: Field, to: Addr)
    requires IsError(p) && IcmpValid(p, |p|)
    ensures var q := Rewritten(p, field, to); IsError(q) && IcmpValid(q, |q|)
  {
    hide RewrittenQuoted, RewrittenHeader;
    ErrorShape(p, field, to);
    if Rewrites(p, field, to) {
      ErrorSteps(p, field, to);
      var h, ihl := RewrittenHeader(p, field, to), HeaderLen(p);
      SumSame(h, ihl, p, ihl, |p| - ihl);
      assert h[ihl] == h[ihl..][0] == p[ihl..][0];
      QuotedKeepsIcmp(h, ihl, field.Opposite(), AddrAt(p, field.Offset()).Octets(), to.Octets());
    }
  }

  // ---------------------------------------------------------------- the quoted packet

  lemma ChangedInner(p: seq<Byte>, ihl: nat, at: nat, bytes: seq<Byte>)
    requires ihl + 8 <= at && at + |bytes| <= |p| && |bytes| % 2 == 0
    ensures Changed(p, ihl + 2, at, bytes)[ihl + 8..] == Splice(p[ihl + 8..], at - (ihl + 8), bytes)
  {
    var s, n := Splice(p, at, bytes), ihl + 8;
    SpliceOut(s, ihl + 2, Bytes16(Adjust(Word(s, ihl + 2), p[at..at + |bytes|], bytes)), n, |p|);
    assert s[n..] == Splice(p[n..], at - n, bytes);
  }

  /** Seen from the quoted packet, the first two edits are the edit of its own header. */
  lemma QuotedHeaderIsRewritten(p: seq<Byte>, ihl: nat, field: Field, was: seq<Byte>, to: Addr)
    requires |p| >= ihl + 28 && Quotes(p, ihl, field, was) && |was| == 4
    ensures RewrittenQuotedHeader(p, ihl, field, was, to.Octets())[ihl + 8..]
         == RewrittenHeader(p[ihl + 8..], field, to)
  {
    hide Adjust;
    var now, n, off := to.Octets(), ihl + 8, field.Offset();
    var inner := p[n..];
    ChangedInner(p, ihl, n + off, now);
    var q := Changed(p, ihl + 2, n + off, now);
    var s := Splice(inner, off, now);
    assert q[n..] == s && inner[off..off + 4] == p[n + off..n + off + 4] == was;
    assert Word(q, n + 10) == Word(s, 10);
    ChangedInner(q, ihl, n + 10, Bytes16(Adjust(Word(q, n + 10), was, now)));
  }

  /** And the third is the edit of its own transport checksum. */
  lemma QuotedTransportIs(p: seq<Byte>, ihl: nat, was: seq<Byte>, now: seq<Byte>)
    requires |p| >= ihl + 28 && |was| == |now| == 4 && WellFormed(p[ihl + 8..])
    ensures var inner, at := p[ihl + 8..], SegmentSumAt(p[ihl + 8..]);
      RewrittenQuotedTransport(p, ihl, was, now)[ihl + 8..]
      == if HasSegmentSum(inner) then Splice(inner, at, Bytes16(AdjustTransport(inner[9], Word(inner, at), was, now)))
         else inner
  {
    hide AdjustTransport, Changed, QuotedSumAt, Splice;
    var inner := p[ihl + 8..];
    QuotedSumIs(p, ihl, inner);
    if HasSegmentSum(inner) {
      var at := QuotedSumAt(p, ihl).value;
      ChangedInner(p, ihl, at, Bytes16(AdjustTransport(p[ihl + 17], Word(p, at), was, now)));
    }
  }

  /** The checksum to adjust, seen from the quoted packet. */
  lemma QuotedSumIs(p: seq<Byte>, ihl: nat, inner: seq<Byte>)
    requires |p| >= ihl + 28 && inner == p[ihl + 8..] && WellFormed(inner)
    ensures inner[9] == p[ihl + 17]
    ensures var r := QuotedSumAt(p, ihl);
      && (r.Some? <==> HasSegmentSum(inner))
      && (r.Some? ==> r.value == ihl + 8 + SegmentSumAt(inner) && Word(p, r.value) == Word(inner, SegmentSumAt(inner)))
  {
    var n := ihl + 8;
    assert inner[0] == p[n] && inner[6] == p[n + 6] && inner[7] == p[n + 7] && inner[9] == p[n + 9];
    var at := SegmentSumAt(inner);
    if |inner| >= at + 2 {
      assert inner[at] == p[n + at] && inner[at + 1] == p[n + at + 1];
    }
  }

  /** The edit of a packet's own header and transport checksum: all of a rewrite, but for an ICMP error. */
  function Edited(p: seq<Byte>, field: Field, to: Addr): (q: seq<Byte>)
    requires WellFormed(p)
    ensures |q| == |p|
  {
    if !Rewrites(p, field, to) then p
    else if !HasSegmentSum(p) then RewrittenHeader(p, field, to)
    else
      var was, at := AddrAt(p, field.Offset()).Octets(), SegmentSumAt(p);
      Splice(RewrittenHeader(p, field, to), at, Bytes16(AdjustTransport(p[9], Word(p, at), was, to.Octets())))
  }

  lemma EditedIsRewritten(p: seq<Byte>, field: Field, to: Addr)
    requires WellFormed(p) && !IsError(p)
    ensures Edited(p, field, to) == Rewritten(p, field, to)
  {
    hide AdjustTransport, Adjust;
    if Rewrites(p, field, to) {
      if HasSegmentSum(p) {
        RewriteSegment(p, field, to);
      } else {
        HeaderOnly(p, field, to);
      }
    }
  }

  /** With no transport checksum to adjust and no packet quoted, a rewrite is its header edit. */
  lemma HeaderOnly(p: seq<Byte>, field: Field, to: Addr)
    requires WellFormed(p) && !IsError(p) && !HasSegmentSum(p) && Rewrites(p, field, to)
    ensures Rewritten(p, field, to) == RewrittenHeader(p, field, to)
  {
    hide Adjust, RewrittenQuoted;
    RewriteSteps(p, field, to);
    var h, ihl := RewrittenHeader(p, field, to), HeaderLen(p);
    HeaderTail(p, field, to, ihl, |p|);
    SliceIndex(h, p, ihl, |p|);
    if FragmentOffset(p) == 0 && p[9] == PROTO_UDP && |p| >= ihl + 8 {
      assert Splice(h, ihl + 6, Bytes16(0)) == h;
    }
  }

  /** UDP sent without a checksum stays without one: past the header nothing changes. */
  lemma NoChecksumStays(p: seq<Byte>, field: Field, to: Addr)
    requires WellFormed(p) && FragmentOffset(p) == 0 && p[9] == PROTO_UDP
    requires |p| >= HeaderLen(p) + 8 && Word(p, HeaderLen(p) + 6) == 0
    ensures var q, ihl := Rewritten(p, field, to), HeaderLen(p);
      q[ihl..] == p[ihl..] && Word(q, ihl + 6) == 0
  {
    hide RewrittenHeader;
    var ihl := HeaderLen(p);
    if Rewrites(p, field, to) {
      HeaderOnly(p, field, to);
      HeaderTail(p, field, to, ihl, |p|);
      var h := RewrittenHeader(p, field, to);
      assert h[ihl..] == h[ihl..|p|] == p[ihl..|p|] == p[ihl..];
      SliceIndex(h, p, ihl, |p|);
    }
  }

  /** Whether an error quotes a packet sent from, or to, the address that is edited. */
  predicate QuotesEdited(p: seq<Byte>, field: Field)
    requires IsError(p) && WellFormed(Quoted(p))
  {
    AddrAt(Quoted(p), field.Opposite().Offset()) == AddrAt(p, field.Offset())
  }

  /** Rewriting an error edits what it quotes, whatever that is, or leaves it if it names another address. */
  lemma QuotedIsEdited(p: seq<Byte>, field: Field, to: Addr)
    requires IsError(p) && WellFormed(Quoted(p))
    ensures IsError(Rewritten(p, field, to))
    ensures Quoted(Rewritten(p, field, to))
         == if QuotesEdited(p, field) then Edited(Quoted(p), field.Opposite(), to) else Quoted(p)
  {
    hide RewrittenQuoted, RewrittenHeader, Adjust, AdjustTransport, HasSegmentSum;
    ErrorShape(p, field, to);
    if Rewrites(p, field, to) {
      ErrorSteps(p, field, to);
      var h, n := RewrittenHeader(p, field, to), HeaderLen(p) + 8;
      assert h[n..] == h[n - 8..][8..] == p[n - 8..][8..] == Quoted(p);
      if QuotesEdited(p, field) {
        QuotedEdit(h, HeaderLen(p), field.Opposite(), Quoted(p), to);
      } else {
        NotQuoted(h, HeaderLen(p), field.Opposite(), Quoted(p), AddrAt(p, field.Offset()), to);
      }
    }
  }

  lemma NotQuoted(h: seq<Byte>, ihl: nat, field: Field, inner: seq<Byte>, was: Addr, to: Addr)
    requires |h| >= ihl + 28 && h[ihl + 8..] == inner && WellFormed(inner) && AddrAt(inner, field.Offset()) != was
    ensures RewrittenQuoted(h, ihl, field, was.Octets(), to.Octets()) == h
  {
    var at := ihl + 8 + field.Offset();
    assert h[at..at + 4] == inner[field.Offset()..field.Offset() + 4];
    SameOctets(inner, field.Offset(), was);
  }

  lemma QuotedEdit(h: seq<Byte>, ihl: nat, field: Field, inner: seq<Byte>, to: Addr)
    requires |h| >= ihl + 28 && h[ihl + 8..] == inner && WellFormed(inner) && Rewrites(inner, field, to)
    ensures RewrittenQuoted(h, ihl, field, AddrAt(inner, field.Offset()).Octets(), to.Octets())[ihl + 8..]
         == Edited(inner, field, to)
  {
    hide AdjustTransport, Adjust, RewrittenHeader, RewrittenQuotedHeader, RewrittenQuotedTransport;
    var was, now := AddrAt(inner, field.Offset()).Octets(), to.Octets();
    SameQuoted(h, ihl, field, inner);
    QuotedHeaderIsRewritten(h, ihl, field, was, to);
    SegmentAfterHeader(inner, field, to);
    QuotedTransportIs(RewrittenQuotedHeader(h, ihl, field, was, now), ihl, was, now);
  }

  /** An edit of the header leaves the transport header to be read as before. */
  lemma SegmentAfterHeader(p: seq<Byte>, field: Field, to: Addr)
    requires WellFormed(p)
    ensures var h := RewrittenHeader(p, field, to);
      && WellFormed(h) && h[9] == p[9] && HeaderLen(h) == HeaderLen(p) && HasSegmentSum(h) == HasSegmentSum(p)
      && SegmentSumAt(h) == SegmentSumAt(p)
      && (HasSegmentSum(p) ==> Word(h, SegmentSumAt(p)) == Word(p, SegmentSumAt(p)))
  {
    HeaderFacts(p, field, to);
    var h := RewrittenHeader(p, field, to);
    SliceIndex(h, p, 0, 10);
    HeaderTail(p, field, to, 20, |p|);
    SliceIndex(h, p, 20, |p|);
  }

  /**
   So an error that quotes the edited address, but not in an error that quotes it in turn, is
   rewritten to quote exactly what rewriting the quoted packet gives.
   */
  lemma QuotedIsRewritten(p: seq<Byte>, field: Field, to: Addr)
    requires IsError(p) && WellFormed(Quoted(p)) && QuotesEdited(p, field) && !Nests(Quoted(p), field.Opposite())
    ensures IsError(Rewritten(p, field, to))
    ensures Quoted(Rewritten(p, field, to)) == Rewritten(Quoted(p), field.Opposite(), to)
  {
    hide Edited, Rewritten, IsError;
    QuotedIsEdited(p, field, to);
    if IsError(Quoted(p)) {
      NestedKept(Quoted(p), field.Opposite(), to);
    } else {
      EditedIsRewritten(Quoted(p), field.Opposite(), to);
    }
  }

  lemma NestedKept(p: seq<Byte>, field: Field, to: Addr)
    requires IsError(p) && !Nests(p, field)
    ensures Rewritten(p, field, to) == Edited(p, field, to)
  {
    hide RewrittenHeader, Rewritten, Adjust, AdjustTransport, Quotes;
    if Rewrites(p, field, to) {
      ErrorSteps(p, field, to);
      ErrorHasNoSum(p);
      QuotesAlike(p, RewrittenHeader(p, field, to), HeaderLen(p), field.Opposite(),
                  AddrAt(p, field.Offset()).Octets());
    } else {
      NotRewritten(p, field, to);
    }
  }

  lemma QuotesAlike(p: seq<Byte>, h: seq<Byte>, ihl: nat, field: Field, was: seq<Byte>)
    requires |p| == |h| >= ihl + 28 && h[ihl..] == p[ihl..]
    ensures Quotes(h, ihl, field, was) <==> Quotes(p, ihl, field, was)
  {
    var at := 8 + field.Offset();
    SliceOfTail(h, ihl, at, at + 4);
    SliceOfTail(p, ihl, at, at + 4);
    assert h[ihl + 8] == h[ihl..][8] == p[ihl..][8] == p[ihl + 8];
  }

  lemma ErrorHasNoSum(p: seq<Byte>)
    requires IsError(p)
    ensures !HasSegmentSum(p)
  {
  }

  lemma NotRewritten(p: seq<Byte>, field: Field, to: Addr)
    requires |p| > 0 && !Rewrites(p, field, to)
    ensures Rewritten(p, field, to) == p
  {
  }

  /** An error whose own quote names the address its `field` holds. */
  predicate Nests(p: seq<Byte>, field: Field) {
    IsError(p) && Quotes(p, HeaderLen(p), field.Opposite(), AddrAt(p, field.Offset()).Octets())
  }

  lemma SameQuoted(h: seq<Byte>, ihl: nat, field: Field, inner: seq<Byte>)
    requires |h| >= ihl + 28 && h[ihl + 8..] == inner && WellFormed(inner)
    ensures Quotes(h, ihl, field, AddrAt(inner, field.Offset()).Octets())
    ensures h[ihl + 17] == inner[9]
  {
    var n, off := ihl + 8, field.Offset();
    assert forall k :: 0 <= k < |inner| ==> inner[k] == h[n + k];
    assert h[n + off..n + off + 4] == AddrAt(inner, off).Octets();
  }

  /** An edit keeps the header's checksum, and a TCP or UDP checksum, right. */
  lemma EditedKeeps(p: seq<Byte>, field: Field, to: Addr, end: nat)
    requires WellFormed(p)
    ensures var q := Edited(p, field, to);
      && WellFormed(q) && (IpHeaderValid(p) ==> IpHeaderValid(q))
      && (SegmentVerifies(p, end) ==> SegmentVerifies(q, end))
  {
    hide RewrittenHeader, AdjustTransport;
    if IsError(p) {
      HeaderFacts(p, field, to);
    } else {
      EditedIsRewritten(p, field, to);
      RewriteKeepsIpHeader(p, field, to);
      if SegmentVerifies(p, end) {
        RewriteKeepsSegment(p, field, to, end);
      }
    }
  }

  predicate SegmentVerifies(p: seq<Byte>, end: nat) {
    HasSegmentSum(p) && SegmentSumAt(p) + 2 <= end <= |p| && SegmentValid(p, end)
  }

  /**
   Whatever a rewritten error quotes, with a header of at least 20 bytes: the quoted header's
   checksum, and a quoted TCP or UDP checksum wherever its segment ends, keep verifying.
   */
  lemma RewriteKeepsQuoted(p: seq<Byte>, field: Field, to: Addr)
    requires IsError(p) && WellFormed(Quoted(p))
    ensures var q := Rewritten(p, field, to);
      && IsError(q) && WellFormed(Quoted(q))
      && (IpHeaderValid(Quoted(p)) ==> IpHeaderValid(Quoted(q)))
      && forall end :: SegmentVerifies(Quoted(p), end) ==> SegmentVerifies(Quoted(q), end)
  {
    hide IpHeaderValid, SegmentVerifies, Edited;
    QuotedIsEdited(p, field, to);
    EditedKeeps(Quoted(p), field.Opposite(), to, 0);
    forall end | SegmentVerifies(Quoted(p), end) ensures SegmentVerifies(Quoted(Rewritten(p, field, to)), end) {
      EditedKeeps(Quoted(p), field.Opposite(), to, end);
    }
  }
}
