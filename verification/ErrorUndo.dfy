/**
 Undoing the rewrite of an ICMP error: up to four checksums adjusted, one of them three times
 over, and each comes back exactly if it was one a sender computes.
 */
module ErrorUndo {
  import opened Wire
  import opened Checksum
  import opened Ipv4
  import opened Rewrite
  import opened RewriteLaws
  import opened QuotedLaws
  import opened UndoLaws

  // ---------------------------------------------------------------- the quoted packet

  /** Editing there and back restores any packet's header and transport exactly if canonical. */
  lemma EditedUndoes(p: seq<Byte>, field: Field, to: Addr)
    requires WellFormed(p) && Rewrites(p, field, to)
    ensures WellFormed(Edited(p, field, to))
    ensures Edited(Edited(p, field, to), field, AddrAt(p, field.Offset())) == p <==> Canonical(p)
  {
    hide AdjustTransport, Adjust, RewrittenHeader;
    EditedKeeps(p, field, to, 0);
    var was := AddrAt(p, field.Offset());
    if IsError(p) {
      SegmentAfterHeader(p, field, to);
      HeaderFacts(p, field, to);
      HeaderTwice(p, field, to);
      AdjustUndoes(Word(p, 10), was.Octets(), to.Octets());
      SpliceSame(p, 10, Adjust(Adjust(Word(p, 10), was.Octets(), to.Octets()), to.Octets(), was.Octets()));
    } else {
      StillNoError(p, field, to);
      EditedIsRewritten(p, field, to);
      EditedIsRewritten(Rewritten(p, field, to), field, was);
      RewriteUndoes(p, field, to);
    }
  }

  /** What an edit leaves in the two checksums it adjusts. */
  lemma EditedSums(p: seq<Byte>, field: Field, to: Addr)
    requires WellFormed(p) && Rewrites(p, field, to)
    ensures var q, was, now := Edited(p, field, to), AddrAt(p, field.Offset()).Octets(), to.Octets();
      && WellFormed(q) && q[9] == p[9] && HasSegmentSum(q) == HasSegmentSum(p) && SegmentSumAt(q) == SegmentSumAt(p)
      && Word(q, 10) == Adjust(Word(p, 10), was, now) && AddrAt(q, field.Offset()) == to
      && (HasSegmentSum(p) ==>
            Word(q, SegmentSumAt(p)) == AdjustTransport(p[9], Word(p, SegmentSumAt(p)), was, now))
  {
    hide AdjustTransport, Adjust;
    SegmentAfterHeader(p, field, to);
    HeaderFacts(p, field, to);
    HeaderSum(p, field, to);
    if HasSegmentSum(p) {
      EditedIsRewritten(p, field, to);
      RewriteSegment(p, field, to);
      SegmentShape(p, field, to);
      RewriteKeepsIpHeader(p, field, to);
    }
  }

  lemma HeaderSum(p: seq<Byte>, field: Field, to: Addr)
    requires WellFormed(p)
    ensures Word(RewrittenHeader(p, field, to), 10)
         == Adjust(Word(p, 10), AddrAt(p, field.Offset()).Octets(), to.Octets())
  {
    hide Adjust;
    var at := field.Offset();
    assert p[at..at + 4] == AddrAt(p, at).Octets();
    assert Word(Splice(p, at, to.Octets()), 10) == Word(p, 10);
  }

  // ---------------------------------------------------------------- the ICMP checksum

  /** One nested change, in the ICMP checksum. */
  lemma ChangedSum(p: seq<Byte>, ck: nat, at: nat, bytes: seq<Byte>)
    requires ck + 2 <= at && at + |bytes| <= |p| && |bytes| % 2 == 0
    ensures Word(Changed(p, ck, at, bytes), ck) == Adjust(Word(p, ck), p[at..at + |bytes|], bytes)
  {
    hide Adjust;
    assert Word(Splice(p, at, bytes), ck) == Word(p, ck);
  }

  /** The changes to a quoted packet, as the ICMP checksum takes them in: the address, then its two checksums. */
  function IcmpAfter(sum: U16, inner: seq<Byte>, was: seq<Byte>, now: seq<Byte>): U16
    requires WellFormed(inner) && |was| == |now| == 4
  {
    var header := Adjust(Adjust(sum, was, now), Bytes16(Word(inner, 10)), Bytes16(Adjust(Word(inner, 10), was, now)));
    if !HasSegmentSum(inner) then header
    else
      var c := Word(inner, SegmentSumAt(inner));
      Adjust(header, Bytes16(c), Bytes16(AdjustTransport(inner[9], c, was, now)))
  }

  lemma WordBytes(p: seq<Byte>, at: nat)
    requires at + 2 <= |p|
    ensures p[at..at + 2] == Bytes16(Word(p, at))
  {
  }

  lemma HeaderSums(p: seq<Byte>, ihl: nat, field: Field, was: seq<Byte>, to: Addr)
    requires |p| >= ihl + 28 && Quotes(p, ihl, field, was) && |was| == 4 && WellFormed(p[ihl + 8..])
    ensures var inner := p[ihl + 8..];
      Word(RewrittenQuotedHeader(p, ihl, field, was, to.Octets()), ihl + 2)
      == Adjust(Adjust(Word(p, ihl + 2), was, to.Octets()), Bytes16(Word(inner, 10)),
                Bytes16(Adjust(Word(inner, 10), was, to.Octets())))
  {
    hide Adjust;
    var now, at, inner := to.Octets(), ihl + 8 + field.Offset(), p[ihl + 8..];
    ChangedSum(p, ihl + 2, at, now);
    var q := Changed(p, ihl + 2, at, now);
    ChangedOut(p, ihl + 2, at, now, ihl + 18, ihl + 20);
    WordBytes(q, ihl + 18);
    WordBytes(p, ihl + 18);
    assert Word(q, ihl + 18) == Word(p, ihl + 18) == Word(inner, 10) by {
      SliceIndex(q, p, ihl + 18, ihl + 20);
    }
    ChangedSum(q, ihl + 2, ihl + 18, Bytes16(Adjust(Word(q, ihl + 18), was, now)));
  }

  lemma QuotedSums(h: seq<Byte>, ihl: nat, field: Field, inner: seq<Byte>, to: Addr)
    requires |h| >= ihl + 28 && h[ihl + 8..] == inner && WellFormed(inner)
    ensures var was := AddrAt(inner, field.Offset()).Octets();
      var q := RewrittenQuoted(h, ihl, field, was, to.Octets());
      Word(q, ihl + 2) == IcmpAfter(Word(h, ihl + 2), inner, was, to.Octets())
  {
    hide Adjust, AdjustTransport, Changed;
    var was, now := AddrAt(inner, field.Offset()).Octets(), to.Octets();
    SameQuoted(h, ihl, field, inner);
    HeaderSums(h, ihl, field, was, to);
    QuotedHeaderIsRewritten(h, ihl, field, was, to);
    SegmentAfterHeader(inner, field, to);
    var r := RewrittenQuotedHeader(h, ihl, field, was, now);
    assert r[ihl + 8..] == RewrittenHeader(inner, field, to);
    TransportSums(r, ihl, was, now);
  }

  lemma TransportSums(r: seq<Byte>, ihl: nat, was: seq<Byte>, now: seq<Byte>)
    requires |r| >= ihl + 28 && |was| == |now| == 4 && WellFormed(r[ihl + 8..])
    ensures var inner := r[ihl + 8..];
      Word(RewrittenQuotedTransport(r, ihl, was, now), ihl + 2)
      == if !HasSegmentSum(inner) then Word(r, ihl + 2)
         else
           var c := Word(inner, SegmentSumAt(inner));
           Adjust(Word(r, ihl + 2), Bytes16(c), Bytes16(AdjustTransport(inner[9], c, was, now)))
  {
    hide Adjust, AdjustTransport, Changed;
    var inner := r[ihl + 8..];
    QuotedSumIs(r, ihl, inner);
    if HasSegmentSum(inner) {
      var at := QuotedSumAt(r, ihl).value;
      WordBytes(r, at);
      ChangedSum(r, ihl + 2, at, Bytes16(AdjustTransport(r[ihl + 17], Word(r, at), was, now)));
    }
  }

  // ---------------------------------------------------------------- the arithmetic of going there and back

  /** An adjustment subtracts and adds, modulo 65535, and gives 0xffff only to 0xffff. */
  lemma AdjustMod(sum: U16, was: seq<Byte>, now: seq<Byte>) returns (k: int)
    requires |was| == |now| && |was| % 2 == 0
    ensures Adjust(sum, was, now) == sum + SumOf(was) - SumOf(now) + 65535 * k
    ensures Adjust(sum, was, now) == 0xffff ==> sum == 0xffff && SumOf(now) == 0 && 2 * SumOf(was) == |was| * 0xffff
  {
    var h := |was| / 2;
    assert |was| == 2 * h;
    NotSumIs(was, 0);
    var x := 0xffff - sum + NotSum(was, 0) + SumOf(now);
    var j := CanonOff(x);
    k := -h - j;
  }

  lemma SumOfWord(v: U16)
    ensures SumOf(Bytes16(v)) == v
  {
    SumBytes16(v);
  }

  /** A word's adjustment for another, in the sum that covers both. */
  lemma AdjustWord(sum: U16, was: U16, now: U16) returns (k: int)
    ensures Adjust(sum, Bytes16(was), Bytes16(now)) == sum + was - now + 65535 * k
    ensures Adjust(sum, Bytes16(was), Bytes16(now)) == 0xffff ==> sum == 0xffff && now == 0 && was == 0xffff
  {
    SumOfWord(was);
    SumOfWord(now);
    k := AdjustMod(sum, Bytes16(was), Bytes16(now));
  }

  lemma {:induction false} TransportMod(protocol: Byte, c: U16, was: seq<Byte>, now: seq<Byte>) returns (k: int)
    requires |was| == |now| == 4 && (protocol == PROTO_UDP ==> c != 0)
    ensures AdjustTransport(protocol, c, was, now) == c + SumOf(was) - SumOf(now) + 65535 * k
    ensures protocol == PROTO_UDP ==> AdjustTransport(protocol, c, was, now) != 0
    ensures protocol != PROTO_UDP && c != 0xffff ==> AdjustTransport(protocol, c, was, now) != 0xffff
  {
    if protocol == PROTO_UDP {
      k := AdjustUdpMod(c, was, now);
    } else {
      k := AdjustMod(c, was, now);
    }
  }

  /** One way through the changes: the ICMP sum moves by what the address and the checksums do. */
  lemma {:induction false} IcmpMod(sum: U16, inner: seq<Byte>, was: seq<Byte>, now: seq<Byte>) returns (k: int)
    requires WellFormed(inner) && |was| == |now| == 4
    ensures var c, at := Adjust(Word(inner, 10), was, now), SegmentSumAt(inner);
      IcmpAfter(sum, inner, was, now) == sum + SumOf(was) - SumOf(now) + Word(inner, 10) - c + 65535 * k
        + if HasSegmentSum(inner) then Word(inner, at) - AdjustTransport(inner[9], Word(inner, at), was, now) else 0
    ensures IcmpAfter(sum, inner, was, now) == 0xffff ==>
              sum == 0xffff && Word(inner, 10) == 0xffff
              && (HasSegmentSum(inner) ==>
                    Word(inner, SegmentSumAt(inner)) == 0xffff
                    && AdjustTransport(inner[9], Word(inner, SegmentSumAt(inner)), was, now) == 0)
  {
    hide Adjust, AdjustTransport;
    var a := AdjustMod(sum, was, now);
    var s1, hc := Adjust(sum, was, now), Word(inner, 10);
    var b := AdjustWord(s1, hc, Adjust(hc, was, now));
    k := a + b;
    if HasSegmentSum(inner) {
      var s2 := Adjust(s1, Bytes16(hc), Bytes16(Adjust(hc, was, now)));
      var c := Word(inner, SegmentSumAt(inner));
      var d := AdjustWord(s2, c, AdjustTransport(inner[9], c, was, now));
      k := k + d;
    }
  }

  lemma Residue(a: U16, b: U16, k: int)
    requires a == b + 65535 * k && a != 0xffff
    ensures a == b <==> b != 0xffff
  {
  }

  /** There and back, the ICMP checksum of an error quoting canonical checksums is itself, unless it was 0xffff. */
  lemma {:induction false} IcmpUndoes(sum: U16, inner: seq<Byte>, field: Field, to: Addr)
    requires WellFormed(inner) && Rewrites(inner, field, to) && Canonical(inner)
    ensures var was, now, edited := AddrAt(inner, field.Offset()).Octets(), to.Octets(), Edited(inner, field, to);
      WellFormed(edited) && (IcmpAfter(IcmpAfter(sum, inner, was, now), edited, now, was) == sum <==> sum != 0xffff)
  {
    hide Adjust, AdjustTransport, IcmpAfter, Edited;
    var was, now, edited := AddrAt(inner, field.Offset()).Octets(), to.Octets(), Edited(inner, field, to);
    EditedSums(inner, field, to);
    var hc := Word(inner, 10);
    var i := IcmpMod(sum, inner, was, now);
    var once := IcmpAfter(sum, inner, was, now);
    var j := IcmpMod(once, edited, now, was);
    var m := AdjustMod(hc, was, now);
    var n := AdjustMod(Adjust(hc, was, now), now, was);
    var twice := IcmpAfter(once, edited, now, was);
    if HasSegmentSum(inner) {
      var c := Word(inner, SegmentSumAt(inner));
      var x := TransportMod(inner[9], c, was, now);
      var y := TransportMod(inner[9], AdjustTransport(inner[9], c, was, now), now, was);
      assert twice == sum + 65535 * (i + j - m - n - x - y);
      Residue(twice, sum, i + j - m - n - x - y);
    } else {
      assert twice == sum + 65535 * (i + j - m - n);
      Residue(twice, sum, i + j - m - n);
    }
  }

  // ---------------------------------------------------------------- the whole error

  /** An error's bytes, by what an edit may touch. */
  lemma SameError(p: seq<Byte>, q: seq<Byte>)
    requires IsError(p) && IsError(q) && |q| == |p| && HeaderLen(q) == HeaderLen(p)
    requires var ihl := HeaderLen(p); q[ihl..ihl + 2] == p[ihl..ihl + 2] && q[ihl + 4..ihl + 8] == p[ihl + 4..ihl + 8]
    ensures var ihl := HeaderLen(p);
      q == p <==> q[..ihl] == p[..ihl] && Word(q, ihl + 2) == Word(p, ihl + 2) && Quoted(q) == Quoted(p)
  {
    var ihl := HeaderLen(p);
    WordBytes(p, ihl + 2);
    WordBytes(q, ihl + 2);
    assert p == p[..ihl] + p[ihl..ihl + 2] + p[ihl + 2..ihl + 4] + p[ihl + 4..ihl + 8] + p[ihl + 8..];
    assert q == q[..ihl] + q[ihl..ihl + 2] + q[ihl + 2..ihl + 4] + q[ihl + 4..ihl + 8] + q[ihl + 8..];
  }

  /** The steps of a rewritten error, seen from the part past its header. */
  lemma ErrorBody(p: seq<Byte>, field: Field, to: Addr)
    requires IsError(p) && Rewrites(p, field, to)
    ensures var h, ihl := RewrittenHeader(p, field, to), HeaderLen(p);
      && h[ihl..ihl + 2] == p[ihl..ihl + 2] && h[ihl + 4..ihl + 8] == p[ihl + 4..ihl + 8]
      && Word(h, ihl + 2) == Word(p, ihl + 2) && h[ihl + 8..] == Quoted(p)
      && Rewritten(p, field, to)
         == RewrittenQuoted(h, ihl, field.Opposite(), AddrAt(p, field.Offset()).Octets(), to.Octets())
  {
    hide Adjust, RewrittenHeader, RewrittenQuoted;
    var h, ihl := RewrittenHeader(p, field, to), HeaderLen(p);
    ErrorSteps(p, field, to);
    SliceOfTail(h, ihl, 0, 2);
    SliceOfTail(p, ihl, 0, 2);
    SliceOfTail(h, ihl, 4, 8);
    SliceOfTail(p, ihl, 4, 8);
    assert h[ihl..][2] == p[ihl..][2] && h[ihl..][3] == p[ihl..][3];
  }

  lemma ErrorSum(p: seq<Byte>, field: Field, to: Addr)
    requires IsError(p) && WellFormed(Quoted(p)) && Rewrites(p, field, to)
    ensures var q, ihl, was := Rewritten(p, field, to), HeaderLen(p), AddrAt(p, field.Offset()).Octets();
      Word(q, ihl + 2) == if QuotesEdited(p, field) then IcmpAfter(Word(p, ihl + 2), Quoted(p), was, to.Octets())
                          else Word(p, ihl + 2)
  {
    hide Adjust, RewrittenHeader, RewrittenQuoted, IcmpAfter, Rewritten;
    var h, ihl, was, off := RewrittenHeader(p, field, to), HeaderLen(p), AddrAt(p, field.Offset()), field.Opposite();
    ErrorBody(p, field, to);
    if QuotesEdited(p, field) {
      QuotedSums(h, ihl, off, Quoted(p), to);
    } else {
      NotQuoted(h, ihl, off, Quoted(p), was, to);
    }
  }

  /** A rewritten error, by the same parts. */
  lemma ErrorAfter(p: seq<Byte>, field: Field, to: Addr)
    requires IsError(p) && WellFormed(Quoted(p)) && Rewrites(p, field, to)
    ensures var q, ihl, was := Rewritten(p, field, to), HeaderLen(p), AddrAt(p, field.Offset()).Octets();
      && IsError(q) && HeaderLen(q) == ihl && AddrAt(q, field.Offset()) == to
      && q[..ihl] == RewrittenHeader(p, field, to)[..ihl]
      && q[ihl..ihl + 2] == p[ihl..ihl + 2] && q[ihl + 4..ihl + 8] == p[ihl + 4..ihl + 8]
      && Word(q, ihl + 2) == if QuotesEdited(p, field) then IcmpAfter(Word(p, ihl + 2), Quoted(p), was, to.Octets())
                             else Word(p, ihl + 2)
  {
    hide Adjust, RewrittenHeader, RewrittenQuoted, IcmpAfter, HasSegmentSum, Rewritten;
    var h, ihl := RewrittenHeader(p, field, to), HeaderLen(p);
    var was, off := AddrAt(p, field.Offset()), field.Opposite();
    ErrorShape(p, field, to);
    RewriteSteps(p, field, to);
    RewriteKeepsIpHeader(p, field, to);
    ErrorBody(p, field, to);
    ErrorSum(p, field, to);
    QuotedOut(h, ihl, off, was.Octets(), to.Octets(), ihl, ihl + 2);
    QuotedOut(h, ihl, off, was.Octets(), to.Octets(), ihl + 4, ihl + 8);
  }

  /** The header of an error, there and back. */
  lemma HeaderBack(p: seq<Byte>, q: seq<Byte>, field: Field, to: Addr)
    requires WellFormed(p) && Rewrites(p, field, to) && WellFormed(q) && |q| == |p| && HeaderLen(q) == HeaderLen(p)
    requires q[..HeaderLen(p)] == RewrittenHeader(p, field, to)[..HeaderLen(p)]
    ensures RewrittenHeader(q, field, AddrAt(p, field.Offset()))[..HeaderLen(p)] == p[..HeaderLen(p)]
       <==> Word(p, 10) != 0xffff
  {
    hide Adjust, RewrittenHeader;
    var ihl, was, now := HeaderLen(p), AddrAt(p, field.Offset()), to.Octets();
    var h := RewrittenHeader(p, field, to);
    HeaderPrefix(q, field, was, ihl);
    HeaderPrefix(h, field, was, ihl);
    HeaderTwice(p, field, to);
    var c := Adjust(Adjust(Word(p, 10), was.Octets(), now), now, was.Octets());
    AdjustUndoes(Word(p, 10), was.Octets(), now);
    SplicePrefix(p, 10, Bytes16(c), ihl);
    SpliceSame(p[..ihl], 10, c);
    assert Word(p[..ihl], 10) == Word(p, 10);
  }

  /**
   What an error must meet to survive: no header checksum or ICMP checksum that is adjusted is
   0xffff, nor a quoted TCP checksum; and if it does not quote the edited address, it does not
   quote the new one, which the way back would take for it.
   */
  predicate SurvivesUndoing(p: seq<Byte>, field: Field, to: Addr)
    requires IsError(p) && WellFormed(Quoted(p))
  {
    && Word(p, 10) != 0xffff
    && if QuotesEdited(p, field) then Word(p, HeaderLen(p) + 2) != 0xffff && Canonical(Quoted(p))
       else AddrAt(Quoted(p), field.Opposite().Offset()) != to
  }

  /** The parts of an error translated there and back. */
  lemma {:induction false} ErrorBack(p: seq<Byte>, field: Field, to: Addr)
    requires IsError(p) && WellFormed(Quoted(p)) && Rewrites(p, field, to)
    ensures var q, was, ihl := Rewritten(p, field, to), AddrAt(p, field.Offset()), HeaderLen(p);
      var back := Rewritten(q, field, was);
      && IsError(q) && WellFormed(Quoted(q)) && AddrAt(q, field.Offset()) == to && IsError(back)
      && (back == p <==>
            Word(p, 10) != 0xffff && Word(back, ihl + 2) == Word(p, ihl + 2) && Quoted(back) == Quoted(p))
      && Quoted(q) == (if QuotesEdited(p, field) then Edited(Quoted(p), field.Opposite(), to) else Quoted(p))
      && Quoted(back) == (if QuotesEdited(q, field) then Edited(Quoted(q), field.Opposite(), was) else Quoted(q))
      && Word(q, ihl + 2) == (if !QuotesEdited(p, field) then Word(p, ihl + 2)
                              else IcmpAfter(Word(p, ihl + 2), Quoted(p), was.Octets(), to.Octets()))
      && Word(back, ihl + 2) == (if !QuotesEdited(q, field) then Word(q, ihl + 2)
                                 else IcmpAfter(Word(q, ihl + 2), Quoted(q), to.Octets(), was.Octets()))
  {
    hide Adjust, RewrittenHeader, Rewritten, IcmpAfter, Canonical, Edited, HasSegmentSum, QuotesEdited;
    var q, was := Rewritten(p, field, to), AddrAt(p, field.Offset());
    ErrorAfter(p, field, to);
    QuotedIsEdited(p, field, to);
    EditedKeeps(Quoted(p), field.Opposite(), to, 0);
    ErrorAfter(q, field, was);
    QuotedIsEdited(q, field, was);
    HeaderBack(p, q, field, to);
    SameError(p, Rewritten(q, field, was));
  }

  /** Translating an ICMP error back restores it exactly then. */
  lemma {:induction false} ErrorUndoes(p: seq<Byte>, field: Field, to: Addr)
    requires IsError(p) && WellFormed(Quoted(p)) && Rewrites(p, field, to)
    ensures Rewritten(Rewritten(p, field, to), field, AddrAt(p, field.Offset())) == p <==> SurvivesUndoing(p, field, to)
  {
    hide Adjust, RewrittenHeader, Rewritten, IcmpAfter, Canonical, Edited, HasSegmentSum;
    var q, was, sum := Rewritten(p, field, to), AddrAt(p, field.Offset()), Word(p, HeaderLen(p) + 2);
    ErrorBack(p, field, to);
    if QuotesEdited(p, field) {
      QuotedThereAndBack(p, q, field, to);
      if Canonical(Quoted(p)) {
        assert Returns(sum, Quoted(p), Quoted(q), was.Octets(), to.Octets()) <==> sum != 0xffff;
      }
    } else if QuotesEdited(q, field) {
      NewAddressTaken(Quoted(p), field.Opposite(), was);
    }
  }

  predicate Returns(sum: U16, inner: seq<Byte>, edited: seq<Byte>, was: seq<Byte>, now: seq<Byte>)
    requires WellFormed(inner) && WellFormed(edited) && |was| == |now| == 4
  {
    IcmpAfter(IcmpAfter(sum, inner, was, now), edited, now, was) == sum
  }

  lemma {:induction false} QuotedThereAndBack(p: seq<Byte>, q: seq<Byte>, field: Field, to: Addr)
    requires IsError(p) && WellFormed(Quoted(p)) && QuotesEdited(p, field) && Rewrites(p, field, to)
    requires IsError(q) && Quoted(q) == Edited(Quoted(p), field.Opposite(), to) && AddrAt(q, field.Offset()) == to
    ensures WellFormed(Quoted(q)) && QuotesEdited(q, field)
    ensures var was, opp := AddrAt(p, field.Offset()), field.Opposite();
      && (Edited(Quoted(q), opp, was) == Quoted(p) <==> Canonical(Quoted(p)))
      && (Canonical(Quoted(p)) ==>
            (forall sum: U16 :: Returns(sum, Quoted(p), Quoted(q), was.Octets(), to.Octets()) <==> sum != 0xffff))
  {
    hide Adjust, IcmpAfter, Canonical, Edited, IsError, HasSegmentSum;
    var inner, opp := Quoted(p), field.Opposite();
    EditedUndoes(inner, opp, to);
    EditedSums(inner, opp, to);
    if Canonical(inner) {
      forall sum: U16
        ensures Returns(sum, inner, Quoted(q), AddrAt(p, field.Offset()).Octets(), to.Octets()) <==> sum != 0xffff
      {
        IcmpUndoes(sum, inner, opp, to);
      }
    }
  }

  /** Editing an address that was not the edited one does not give the packet back. */
  lemma NewAddressTaken(inner: seq<Byte>, field: Field, was: Addr)
    requires WellFormed(inner) && AddrAt(inner, field.Offset()) != was
    ensures Edited(inner, field, was) != inner
  {
    hide Adjust, AdjustTransport;
    EditedSums(inner, field, was);
  }
}
