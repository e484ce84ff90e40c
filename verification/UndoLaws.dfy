/**
 Undoing a rewrite: translating a packet and translating it back gives the packet, byte for
 byte, exactly when its checksums were ones a sender computes; and so does translating back a
 truncated copy, which is what an ICMP error quotes.
 */
module UndoLaws {
  import opened Wire
  import opened Checksum
  import opened Ipv4
  import opened Rewrite
  import opened RewriteLaws
  import opened QuotedLaws

  /**
   No checksum a rewrite adjusts by plain RFC 1624 arithmetic is 0xffff.  A sum of a header or of
   a TCP segment is never all zero words, so a sender's checksum never is (ComplementVerifies).
   */
  predicate Canonical(p: seq<Byte>)
    requires WellFormed(p)
  {
    && Word(p, 10) != 0xffff
    && (HasSegmentSum(p) && p[9] == PROTO_TCP ==> Word(p, SegmentSumAt(p)) != 0xffff)
  }

  /** UDP's adjusted checksum is the one nonzero representative of its residue. */
  lemma AdjustUdpMod(sum: U16, was: seq<Byte>, now: seq<Byte>) returns (k: int)
    requires |was| == |now| && |was| % 2 == 0 && sum != 0
    ensures AdjustUdp(sum, was, now) == sum + SumOf(was) - SumOf(now) + 65535 * k
    ensures AdjustUdp(sum, was, now) != 0
  {
    var h := |was| / 2;
    assert |was| == 2 * h;
    NotSumIs(was, 0);
    var x := 0xffff - sum + NotSum(was, 0) + SumOf(now);
    ModCong(Canon(x), x, -x);
    var j := (Canon(x) - x) / 65535;
    assert Canon(x) == x + 65535 * j;
    k := if Adjust(sum, was, now) == 0 then 1 - h - j else -h - j;
  }

  lemma AdjustUdpUndoes(sum: U16, was: seq<Byte>, now: seq<Byte>)
    requires |was| == |now| && |was| % 2 == 0
    ensures AdjustUdp(AdjustUdp(sum, was, now), now, was) == sum
  {
    if sum != 0 {
      var j := AdjustUdpMod(sum, was, now);
      var k := AdjustUdpMod(AdjustUdp(sum, was, now), now, was);
      assert AdjustUdp(AdjustUdp(sum, was, now), now, was) == sum + 65535 * (j + k);
    }
  }

  lemma AdjustTransportUndoes(protocol: Byte, sum: U16, was: seq<Byte>, now: seq<Byte>)
    requires |was| == |now| && |was| % 2 == 0 && |was| > 0
    ensures AdjustTransport(protocol, AdjustTransport(protocol, sum, was, now), now, was) == sum
       <==> protocol == PROTO_UDP || sum != 0xffff
  {
    AdjustUdpUndoes(sum, was, now);
    AdjustUndoes(sum, was, now);
  }

  /** Two header edits back to back leave only what became of the header checksum. */
  lemma HeaderTwice(p: seq<Byte>, field: Field, to: Addr)
    requires WellFormed(p)
    ensures var was, now := AddrAt(p, field.Offset()), to.Octets();
      RewrittenHeader(RewrittenHeader(p, field, to), field, was)
      == Splice(p, 10, Bytes16(Adjust(Adjust(Word(p, 10), was.Octets(), now), now, was.Octets())))
  {
    hide Adjust;
    var at := field.Offset();
    var was, now := AddrAt(p, at).Octets(), to.Octets();
    var once := Adjust(Word(p, 10), was, now);
    ThereAndBack(p, at, now, once, Adjust(once, now, was));
  }

  /** An address and a checksum, edited twice: the address is back. */
  lemma ThereAndBack(p: seq<Byte>, at: nat, now: seq<Byte>, once: U16, twice: U16)
    requires 12 <= at && at + 4 <= |p| && |now| == 4
    ensures var was := AddrAt(p, at).Octets();
      var s := Splice(p, at, now);
      var h := Splice(s, 10, Bytes16(once));
      && p[at..at + 4] == was && Word(s, 10) == Word(p, 10)
      && h[at..at + 4] == now
      && Word(Splice(h, at, was), 10) == once
      && Splice(Splice(h, at, was), 10, Bytes16(twice)) == Splice(p, 10, Bytes16(twice))
  {
    var was, r := AddrAt(p, at).Octets(), Splice(p, 10, Bytes16(once));
    SpliceCommute(p, 10, Bytes16(once), at, now);
    SpliceTwice(r, at, now, was);
    assert r[at..at + 4] == was;
    assert Splice(r, at, was) == r;
    SpliceTwice(p, 10, Bytes16(once), Bytes16(twice));
  }

  /** A header edit and an edit past the header commute. */
  lemma HeaderPast(p: seq<Byte>, field: Field, to: Addr, at: nat, bytes: seq<Byte>)
    requires |p| >= 20 && 20 <= at && at + |bytes| <= |p|
    ensures RewrittenHeader(Splice(p, at, bytes), field, to) == Splice(RewrittenHeader(p, field, to), at, bytes)
  {
    var q, off := Splice(p, at, bytes), field.Offset();
    assert q[off..off + 4] == p[off..off + 4];
    var s := Splice(p, off, to.Octets());
    SpliceCommute(p, off, to.Octets(), at, bytes);
    assert Word(Splice(s, at, bytes), 10) == Word(s, 10);
    SpliceCommute(s, 10, Bytes16(Adjust(Word(s, 10), p[off..off + 4], to.Octets())), at, bytes);
  }

  lemma SpliceCommute(p: seq<Byte>, i: nat, a: seq<Byte>, j: nat, b: seq<Byte>)
    requires i + |a| <= j && j + |b| <= |p|
    ensures Splice(Splice(p, i, a), j, b) == Splice(Splice(p, j, b), i, a)
  {
    var x, y := Splice(Splice(p, i, a), j, b), Splice(Splice(p, j, b), i, a);
    forall k | 0 <= k < |p| ensures x[k] == y[k] {}
  }

  lemma SpliceTwice(p: seq<Byte>, at: nat, a: seq<Byte>, b: seq<Byte>)
    requires |a| == |b| && at + |a| <= |p|
    ensures Splice(Splice(p, at, a), at, b) == Splice(p, at, b)
  {
  }

  lemma SpliceSame(p: seq<Byte>, at: nat, v: U16)
    requires at + 2 <= |p|
    ensures Splice(p, at, Bytes16(v)) == p <==> v == Word(p, at)
  {
    var q := Splice(p, at, Bytes16(v));
    assert Word(q, at) == v;
  }

  /** Translating back any packet but an ICMP error restores it exactly when its checksums were canonical. */
  lemma RewriteUndoes(p: seq<Byte>, field: Field, to: Addr)
    requires WellFormed(p) && !IsError(p) && Rewrites(p, field, to)
    ensures Rewritten(Rewritten(p, field, to), field, AddrAt(p, field.Offset())) == p <==> Canonical(p)
  {
    var off := field.Offset();
    var was, now := AddrAt(p, off), to.Octets();
    AdjustUndoes(Word(p, 10), was.Octets(), now);
    HeaderTwice(p, field, to);
    var c := Adjust(Adjust(Word(p, 10), was.Octets(), now), now, was.Octets());
    SpliceSame(p, 10, c);
    if HasSegmentSum(p) {
      UndoSegment(p, field, to, c);
    } else {
      HeaderOnly(p, field, to);
      NoErrorEither(p, field, to);
      HeaderFacts(p, field, to);
      HeaderOnly(RewrittenHeader(p, field, to), field, was);
    }
  }

  lemma NoErrorEither(p: seq<Byte>, field: Field, to: Addr)
    requires WellFormed(p) && !IsError(p)
    ensures var h := RewrittenHeader(p, field, to); !IsError(h) && HasSegmentSum(h) == HasSegmentSum(p)
  {
    SegmentAfterHeader(p, field, to);
    var h := RewrittenHeader(p, field, to);
    HeaderFacts(p, field, to);
    SliceIndex(h, p, 0, 10);
    HeaderTail(p, field, to, 20, |p|);
    SliceIndex(h, p, 20, |p|);
  }

  lemma UndoSegment(p: seq<Byte>, field: Field, to: Addr, c: U16)
    requires HasSegmentSum(p) && Rewrites(p, field, to)
    requires RewrittenHeader(RewrittenHeader(p, field, to), field, AddrAt(p, field.Offset()))
          == Splice(p, 10, Bytes16(c))
    ensures Rewritten(Rewritten(p, field, to), field, AddrAt(p, field.Offset())) == p
       <==> c == Word(p, 10) && (p[9] == PROTO_UDP || Word(p, SegmentSumAt(p)) != 0xffff)
  {
    var was, now, at := AddrAt(p, field.Offset()), to.Octets(), SegmentSumAt(p);
    var h, q := RewrittenHeader(p, field, to), Rewritten(p, field, to);
    RewriteSegment(p, field, to);
    SegmentShape(p, field, to);
    RewriteKeepsIpHeader(p, field, to);
    RewriteSegment(q, field, was);
    var once := AdjustTransport(p[9], Word(p, at), was.Octets(), now);
    AdjustTransportUndoes(p[9], Word(p, at), was.Octets(), now);
    HeaderPast(h, field, was, at, Bytes16(once));
    SpliceBoth(p, c, at, once, AdjustTransport(p[9], once, now, was.Octets()));
  }

  lemma SpliceBoth(p: seq<Byte>, c: U16, at: nat, once: U16, twice: U16)
    requires 12 <= at && at + 2 <= |p|
    ensures Splice(Splice(Splice(p, 10, Bytes16(c)), at, Bytes16(once)), at, Bytes16(twice)) == p
       <==> c == Word(p, 10) && twice == Word(p, at)
  {
    var r := Splice(p, 10, Bytes16(c));
    SpliceTwice(r, at, Bytes16(once), Bytes16(twice));
    var back := Splice(r, at, Bytes16(twice));
    assert Word(back, 10) == c && Word(back, at) == twice && Word(p, at) == Word(r, at);
    SpliceSame(p, 10, c);
    SpliceSame(r, at, twice);
  }

  // ---------------------------------------------------------------- what an error quotes

  /** A quote long enough to name the flow, and not cutting a TCP checksum in two. */
  predicate Quotable(p: seq<Byte>, k: nat) { MayQuote(p, k) && !CutsSum(p, k) }

  predicate MayQuote(p: seq<Byte>, k: nat) { WellFormed(p) && HeaderLen(p) + 8 <= k <= |p| }

  predicate CutsSum(p: seq<Byte>, k: nat)
    requires WellFormed(p)
  {
    HasSegmentSum(p) && k == SegmentSumAt(p) + 1
  }

  lemma HeaderPrefix(p: seq<Byte>, field: Field, to: Addr, k: nat)
    requires 20 <= k <= |p|
    ensures RewrittenHeader(p[..k], field, to) == RewrittenHeader(p, field, to)[..k]
  {
    hide Adjust;
    var off, q := field.Offset(), p[..k];
    assert q[off..off + 4] == p[off..off + 4];
    var s := Splice(p, off, to.Octets());
    SplicePrefix(p, off, to.Octets(), k);
    assert s[..k][10] == s[10] && s[..k][11] == s[11];
    SplicePrefix(s, 10, Bytes16(Adjust(Word(s, 10), p[off..off + 4], to.Octets())), k);
  }

  lemma PrefixShape(p: seq<Byte>, k: nat)
    requires MayQuote(p, k)
    ensures WellFormed(p[..k]) && HeaderLen(p[..k]) == HeaderLen(p) && p[..k][9] == p[9]
    ensures AddrAt(p[..k], 12) == AddrAt(p, 12) && AddrAt(p[..k], 16) == AddrAt(p, 16)
    ensures HasSegmentSum(p[..k]) <==> HasSegmentSum(p) && SegmentSumAt(p) + 2 <= k
    ensures SegmentSumAt(p[..k]) == SegmentSumAt(p)
  {
  }

  lemma PrefixSegment(p: seq<Byte>, field: Field, to: Addr, k: nat)
    requires Quotable(p, k) && Rewrites(p, field, to) && HasSegmentSum(p)
    ensures Rewritten(p[..k], field, to) == Rewritten(p, field, to)[..k]
  {
    var q, h, at := p[..k], RewrittenHeader(p, field, to), SegmentSumAt(p);
    PrefixShape(p, k);
    HeaderPrefix(p, field, to, k);
    RewriteSegment(p, field, to);
    if HasSegmentSum(q) {
      RewriteSegment(q, field, to);
      assert Word(q, at) == Word(p, at);
    } else {
      HeaderOnly(q, field, to);
    }
    SplicePrefix(h, at,
                 Bytes16(AdjustTransport(p[9], Word(p, at), AddrAt(p, field.Offset()).Octets(), to.Octets())), k);
  }

  lemma SplicePrefix(p: seq<Byte>, at: nat, bytes: seq<Byte>, k: nat)
    requires at + |bytes| <= |p| && k <= |p|
    ensures at + |bytes| <= k ==> Splice(p[..k], at, bytes) == Splice(p, at, bytes)[..k]
    ensures k <= at ==> p[..k] == Splice(p, at, bytes)[..k]
  {
  }

  /** A quote that ends amid the checksum is not edited there, for it has none. */
  lemma CutSegment(p: seq<Byte>, field: Field, to: Addr, k: nat)
    requires MayQuote(p, k) && CutsSum(p, k) && Rewrites(p, field, to)
    ensures Rewritten(p[..k], field, to) == Rewritten(p, field, to)[..k] <==> Rewritten(p, field, to)[k - 1] == p[k - 1]
  {
    hide Adjust, AdjustTransport, RewrittenHeader, Rewritten, Splice;
    var q, h, at := p[..k], RewrittenHeader(p, field, to), SegmentSumAt(p);
    PrefixShape(p, k);
    HeaderPrefix(p, field, to, k);
    RewriteSegment(p, field, to);
    HeaderOnly(q, field, to);
    var sum := Bytes16(AdjustTransport(p[9], Word(p, at), AddrAt(p, field.Offset()).Octets(), to.Octets()));
    CutSplice(h, at, sum);
    SliceIndex(h, p, at, at + 2);
    HeaderTail(p, field, to, at, at + 2);
  }

  lemma CutSplice(h: seq<Byte>, at: nat, sum: seq<Byte>)
    requires |sum| == 2 && at + 2 <= |h|
    ensures h[..at + 1] == Splice(h, at, sum)[..at + 1] <==> Splice(h, at, sum)[at] == h[at]
  {
    var s := Splice(h, at, sum);
    assert h[..at + 1][at] == h[at] && s[..at + 1][at] == s[at];
    assert forall i :: 0 <= i < at ==> s[i] == h[i];
  }

  /**
   Rewriting commutes with quoting exactly if the quote does not end amid the segment's checksum, or
   that byte of it stays the same; but for an error, which no error quotes.
   */
  lemma RewritePrefix(p: seq<Byte>, field: Field, to: Addr, k: nat)
    requires MayQuote(p, k) && !IsError(p)
    ensures Rewritten(p[..k], field, to) == Rewritten(p, field, to)[..k]
       <==> Quotable(p, k) || Rewritten(p, field, to)[k - 1] == p[k - 1]
  {
    PrefixShape(p, k);
    if Rewrites(p, field, to) {
      if CutsSum(p, k) {
        CutSegment(p, field, to, k);
      } else if HasSegmentSum(p) {
        PrefixSegment(p, field, to, k);
      } else {
        HeaderPrefix(p, field, to, k);
        HeaderOnly(p, field, to);
        HeaderOnly(p[..k], field, to);
      }
    }
  }

  /**
   An error about a translated packet.  A program sent `p` from one of this machine's other
   addresses; it left as `Rewritten(p, Src, room)`; someone answered with an error `e`, to the
   room address, quoting `k` bytes of that.  Translated back, the error is addressed to where the
   program is and quotes the first `k` bytes the program sent, byte for byte, exactly when the
   quoted checksums are ones a sender computes.
   */
  lemma ErrorRestores(p: seq<Byte>, room: Addr, e: seq<Byte>, k: nat)
    requires Quotable(p, k) && !IsError(p) && Rewrites(p, Src, room)
    requires IsError(e) && AddrAt(e, 16) == room && Quoted(e) == Rewritten(p, Src, room)[..k]
    ensures var back := Rewritten(e, Dst, AddrAt(p, 12));
      && IsError(back) && AddrAt(back, 16) == AddrAt(p, 12)
      && (Quoted(back) == p[..k] <==> Canonical(p[..k]))
  {
    var q := p[..k];
    PrefixNoError(p, k);
    RewritePrefix(p, Src, room, k);
    RewriteKeepsIpHeader(q, Src, room);
    StillNoError(q, Src, room);
    QuotedIsRewritten(e, Dst, AddrAt(p, 12));
    RewriteKeepsIpHeader(e, Dst, AddrAt(p, 12));
    RewriteUndoes(q, Src, room);
  }

  lemma PrefixNoError(p: seq<Byte>, k: nat)
    requires Quotable(p, k) && !IsError(p)
    ensures WellFormed(p[..k]) && !IsError(p[..k])
  {
  }

  lemma StillNoError(p: seq<Byte>, field: Field, to: Addr)
    requires WellFormed(p) && !IsError(p)
    ensures !IsError(Rewritten(p, field, to))
  {
    EditedIsRewritten(p, field, to);
    NoErrorEither(p, field, to);
    if Rewrites(p, field, to) && HasSegmentSum(p) {
      SegmentShape(p, field, to);
    }
  }
}
