/**
 The packet translator's edit (`lan_rebind.rs`): one of the two addresses is replaced, and the
 checksums over it are adjusted.

 Each edit is written twice: as a function on byte sequences, which the theorems are about, and
 as the in-place method of the source, proved to compute it.
 */
module Rewrite {
  import opened Wire
  import opened Checksum
  import opened Ipv4

  datatype Field = Src | Dst {
    function Offset(): nat { if Src? then 12 else 16 }
    function Opposite(): Field { if Src? then Dst else Src }
  }

  // ---------------------------------------------------------------- what the edits compute

  function AdjustedAt(p: seq<Byte>, at: nat, was: seq<Byte>, now: seq<Byte>): (q: seq<Byte>)
    requires at + 2 <= |p| && |was| == |now| && |was| % 2 == 0
    ensures |q| == |p|
  {
    Splice(p, at, Bytes16(Adjust(Word(p, at), was, now)))
  }

  /** In UDP zero says there is no checksum: it is left alone, and never the result. */
  function AdjustUdp(sum: U16, was: seq<Byte>, now: seq<Byte>): U16
    requires |was| == |now| && |was| % 2 == 0
  {
    if sum == 0 then 0
    else if Adjust(sum, was, now) == 0 then 0xffff
    else Adjust(sum, was, now)
  }

  /** `bytes` written at `at` inside an ICMP message whose checksum is at `icmpSum`. */
  function Changed(p: seq<Byte>, icmpSum: nat, at: nat, bytes: seq<Byte>): (q: seq<Byte>)
    requires icmpSum + 2 <= |p| && at + |bytes| <= |p| && |bytes| % 2 == 0
    ensures |q| == |p|
  {
    AdjustedAt(Splice(p, at, bytes), icmpSum, p[at..at + |bytes|], bytes)
  }

  function AdjustTransport(protocol: Byte, sum: U16, was: seq<Byte>, now: seq<Byte>): U16
    requires |was| == |now| && |was| % 2 == 0
  {
    if protocol == PROTO_UDP then AdjustUdp(sum, was, now) else Adjust(sum, was, now)
  }

  /**
   Where the quoted transport checksum to adjust is, if the quote reaches that far.  Quotes are
   mostly cut eight bytes past the IP header, within which UDP has its checksum and TCP has not.
   */
  function QuotedSumAt(p: seq<Byte>, ihl: nat): (r: Option<nat>)
    requires |p| >= ihl + 28
    ensures r.Some? ==> ihl + 14 <= r.value <= |p| - 2 && (r.value - ihl) % 2 == 0
  {
    var inner := ihl + 8;
    var transport := inner + p[inner] as int % 16 * 4;
    if Word(p, inner + 6) % 0x2000 != 0 then None
    else if p[inner + 9] == PROTO_UDP && |p| >= transport + 8 && Word(p, transport + 6) != 0 then
      Some(transport + 6)
    else if p[inner + 9] == PROTO_TCP && |p| >= transport + 18 then Some(transport + 16)
    else None
  }

  function RewrittenQuotedTransport(p: seq<Byte>, ihl: nat, was: seq<Byte>, now: seq<Byte>): (q: seq<Byte>)
    requires |p| >= ihl + 28 && |was| == |now| == 4
    ensures |q| == |p|
  {
    match QuotedSumAt(p, ihl)
    case None => p
    case Some(at) =>
      Changed(p, ihl + 2, at, Bytes16(AdjustTransport(p[ihl + 17], Word(p, at), was, now)))
  }

  /** The quoted address and the quoted header's checksum. */
  function RewrittenQuotedHeader(p: seq<Byte>, ihl: nat, field: Field, was: seq<Byte>, now: seq<Byte>): (q: seq<Byte>)
    requires |p| >= ihl + 28 && |was| == |now| == 4
    ensures |q| == |p|
  {
    var q := Changed(p, ihl + 2, ihl + 8 + field.Offset(), now);
    Changed(q, ihl + 2, ihl + 18, Bytes16(Adjust(Word(q, ihl + 18), was, now)))
  }

  /** Whether an error quotes an IPv4 packet whose `field` is `was`. */
  predicate Quotes(p: seq<Byte>, ihl: nat, field: Field, was: seq<Byte>)
    requires |p| >= ihl + 28
  {
    var at := ihl + 8 + field.Offset();
    p[at..at + 4] == was && p[ihl + 8] as int / 16 == 4
  }

  function RewrittenQuoted(p: seq<Byte>, ihl: nat, field: Field, was: seq<Byte>, now: seq<Byte>): (q: seq<Byte>)
    requires |p| >= ihl + 28 && |was| == |now| == 4
    ensures |q| == |p|
  {
    if !Quotes(p, ihl, field, was) then p
    else RewrittenQuotedTransport(RewrittenQuotedHeader(p, ihl, field, was, now), ihl, was, now)
  }

  /** The part of a rewrite past the IP header. */
  function RewrittenBody(p: seq<Byte>, ihl: nat, field: Field, was: seq<Byte>, now: seq<Byte>): (q: seq<Byte>)
    requires |p| >= 20 && |p| >= ihl && |was| == |now| == 4
    ensures |q| == |p|
  {
    if FragmentOffset(p) != 0 then p
    else if p[9] == PROTO_TCP && |p| >= ihl + 18 then AdjustedAt(p, ihl + 16, was, now)
    else if p[9] == PROTO_UDP && |p| >= ihl + 8 then
      Splice(p, ihl + 6, Bytes16(AdjustUdp(Word(p, ihl + 6), was, now)))
    else if p[9] == PROTO_ICMP && |p| >= ihl + 28 && IsIcmpError(p[ihl]) then
      RewrittenQuoted(p, ihl, field.Opposite(), was, now)
    else p
  }

  /** Whether a rewrite changes anything. */
  predicate Rewrites(p: seq<Byte>, field: Field, to: Addr)
    requires |p| > 0
  {
    |p| >= HeaderLen(p) && |p| >= 20 && AddrAt(p, field.Offset()) != to
  }

  function RewrittenHeader(p: seq<Byte>, field: Field, to: Addr): (q: seq<Byte>)
    requires |p| >= 20
    ensures |q| == |p|
  {
    var at := field.Offset();
    AdjustedAt(Splice(p, at, to.Octets()), 10, p[at..at + 4], to.Octets())
  }

  function Rewritten(p: seq<Byte>, field: Field, to: Addr): (q: seq<Byte>)
    requires |p| > 0
    ensures |q| == |p|
  {
    if !Rewrites(p, field, to) then p
    else
      var at := field.Offset();
      RewrittenBody(RewrittenHeader(p, field, to), HeaderLen(p), field, p[at..at + 4], to.Octets())
  }

  function WithDscp(p: seq<Byte>, dscp: nat): (q: seq<Byte>)
    requires dscp < 64
    ensures |q| == |p|
  {
    if |p| < 20 then p
    else
      var now := [p[0], dscp * 4 + p[1] as int % 4];
      AdjustedAt(Splice(p, 0, now), 10, p[0..2], now)
  }

  // ---------------------------------------------------------------- the edits, in place

  method Write16(p: array<Byte>, at: nat, v: U16)
    requires at + 2 <= p.Length
    modifies p
    ensures p[..] == Splice(old(p[..]), at, Bytes16(v))
  {
    CopyInto(p, at, Bytes16(v));
  }

  method AdjustAt(p: array<Byte>, at: nat, was: seq<Byte>, now: seq<Byte>)
    requires at + 2 <= p.Length && |was| == |now| && |was| % 2 == 0 && |was| <= 4
    modifies p
    ensures p[..] == AdjustedAt(old(p[..]), at, was, now)
  {
    var sum := ChecksumAdjust(Word(p[..], at), was, now);
    Write16(p, at, sum);
  }

  method AdjustUdpAt(p: array<Byte>, at: nat, was: seq<Byte>, now: seq<Byte>)
    requires at + 2 <= p.Length && |was| == |now| && |was| % 2 == 0 && |was| <= 4
    modifies p
    ensures p[..] == Splice(old(p[..]), at, Bytes16(AdjustUdp(Word(old(p[..]), at), was, now)))
  {
    var sum := Word(p[..], at);
    if sum == 0 {
      assert p[..] == Splice(p[..], at, Bytes16(0));
      return;
    }
    sum := ChecksumAdjust(sum, was, now);
    Write16(p, at, if sum == 0 then 0xffff else sum);
  }

  method Change(p: array<Byte>, icmpSum: nat, at: nat, bytes: seq<Byte>)
    requires icmpSum + 2 <= p.Length && at + |bytes| <= p.Length && |bytes| % 2 == 0 && |bytes| <= 4
    modifies p
    ensures p[..] == Changed(old(p[..]), icmpSum, at, bytes)
  {
    var before := p[at..at + |bytes|];
    assert before == p[..][at..at + |bytes|];
    CopyInto(p, at, bytes);
    AdjustAt(p, icmpSum, before, bytes);
  }

  /** The edit inside an ICMP error, whose quoted packet went the opposite way. */
  method RewriteQuoted(p: array<Byte>, ihl: nat, field: Field, was: seq<Byte>, now: seq<Byte>)
    requires p.Length >= ihl + 28 && |was| == |now| == 4
    modifies p
    ensures p[..] == RewrittenQuoted(old(p[..]), ihl, field, was, now)
  {
    hide Adjust, RewrittenQuotedTransport;
    var inner := ihl + 8;
    var at := inner + field.Offset();
    if p[..][at..at + 4] != was || p[inner] as int / 16 != 4 {
      return;
    }
    Change(p, ihl + 2, at, now);
    var sum := ChecksumAdjust(Word(p[..], inner + 10), was, now);
    Change(p, ihl + 2, inner + 10, Bytes16(sum));
    RewriteQuotedTransport(p, ihl, was, now);
  }

  /** The quoted transport checksum, if it is quoted. */
  method RewriteQuotedTransport(p: array<Byte>, ihl: nat, was: seq<Byte>, now: seq<Byte>)
    requires p.Length >= ihl + 28 && |was| == |now| == 4
    modifies p
    ensures p[..] == RewrittenQuotedTransport(old(p[..]), ihl, was, now)
  {
    hide Adjust, Changed;
    var s := p[..];
    var inner := ihl + 8;
    var transport := inner + s[inner] as int % 16 * 4;
    if Word(s, inner + 6) % 0x2000 != 0 {
      assert QuotedSumAt(s, ihl) == None;
      return;
    }
    var at, sum;
    if s[inner + 9] == PROTO_UDP && |s| >= transport + 8 && Word(s, transport + 6) != 0 {
      at := transport + 6;
      sum := ChecksumAdjust(Word(s, at), was, now);
      if sum == 0 {
        sum := 0xffff;
      }
    } else if s[inner + 9] == PROTO_TCP && |s| >= transport + 18 {
      at := transport + 16;
      sum := ChecksumAdjust(Word(s, at), was, now);
    } else {
      assert QuotedSumAt(s, ihl) == None;
      return;
    }
    assert QuotedSumAt(s, ihl) == Some(at) && inner + 9 == ihl + 17;
    Change(p, ihl + 2, at, Bytes16(sum));
  }

  lemma SameOctets(p: seq<Byte>, at: nat, to: Addr)
    requires at + 4 <= |p|
    ensures p[at..at + 4] == to.Octets() <==> AddrAt(p, at) == to
  {
    var was := p[at..at + 4];
    assert was[0] == p[at] && was[1] == p[at + 1] && was[2] == p[at + 2] && was[3] == p[at + 3];
    if was == to.Octets() {
      assert to.Octets()[0] == to.a && to.Octets()[1] == to.b && to.Octets()[2] == to.c && to.Octets()[3] == to.d;
    }
  }

  /** Put `to` in the packet's source or destination; whether anything changed. */
  method RewriteInPlace(p: array<Byte>, field: Field, to: Addr) returns (done: bool)
    requires p.Length > 0
    modifies p
    ensures done == Rewrites(old(p[..]), field, to)
    ensures p[..] == Rewritten(old(p[..]), field, to)
  {
    hide Adjust, RewrittenBody;
    var ihl := p[0] as int % 16 * 4;
    if p.Length < ihl || p.Length < 20 {
      return false;
    }
    var at := field.Offset();
    var was := p[..][at..at + 4];
    var now := to.Octets();
    SameOctets(p[..], at, to);
    if was == now {
      return false;
    }
    CopyInto(p, at, now);
    AdjustAt(p, 10, was, now);
    RewriteBody(p, ihl, field, was, now);
    done := true;
  }

  /** The part of a rewrite past the IP header, in place. */
  method RewriteBody(p: array<Byte>, ihl: nat, field: Field, was: seq<Byte>, now: seq<Byte>)
    requires p.Length >= 20 && p.Length >= ihl && |was| == |now| == 4
    modifies p
    ensures p[..] == RewrittenBody(old(p[..]), ihl, field, was, now)
  {
    hide AdjustedAt, AdjustUdp, RewrittenQuoted;
    var s := p[..];
    if Word(s, 6) % 0x2000 != 0 {
      return;
    }
    if s[9] == PROTO_TCP && |s| >= ihl + 18 {
      AdjustAt(p, ihl + 16, was, now);
    } else if s[9] == PROTO_UDP && |s| >= ihl + 8 {
      AdjustUdpAt(p, ihl + 6, was, now);
    } else if s[9] == PROTO_ICMP && |s| >= ihl + 28 && IsIcmpError(s[ihl]) {
      RewriteQuoted(p, ihl, field.Opposite(), was, now);
    }
  }

  method SetDscp(p: array<Byte>, dscp: nat)
    requires dscp < 64
    modifies p
    ensures p[..] == WithDscp(old(p[..]), dscp)
  {
    if p.Length < 20 {
      return;
    }
    var was := p[..][0..2];
    p[1] := dscp * 4 + p[1] as int % 4;
    var now := [p[0], p[1]];
    assert p[..] == Splice(old(p[..]), 0, now);
    AdjustAt(p, 10, was, now);
  }
}
