/** Reading IPv4, TCP, UDP and ICMP headers (`lan.rs`, `lan_rebind.rs`). */
module Ipv4 {
  import opened Wire

  const PROTO_ICMP: Byte := 1
  const PROTO_TCP: Byte := 6
  const PROTO_UDP: Byte := 17

  /** The transports a game uses; everything else is neither filtered by port nor translated. */
  datatype LanProto = Udp | Tcp

  function ProtoOf(protocol: Byte): Option<LanProto> {
    if protocol == PROTO_UDP then Some(Udp)
    else if protocol == PROTO_TCP then Some(Tcp)
    else None
  }

  function HeaderLen(p: seq<Byte>): nat
    requires |p| > 0
  {
    p[0] as int % 16 * 4
  }

  /** The 13-bit fragment offset. */
  function FragmentOffset(p: seq<Byte>): nat
    requires |p| >= 8
  {
    Word(p, 6) % 0x2000
  }

  predicate MoreFragments(p: seq<Byte>)
    requires |p| >= 8
  {
    Word(p, 6) / 0x2000 % 2 == 1
  }

  /** Source and destination, or None if `p` is not an IPv4 packet. */
  function Endpoints(p: seq<Byte>): (r: Option<(Addr, Addr)>)
    ensures r.Some? ==> |p| >= 20 && HeaderLen(p) >= 20 && p[0] >= 0x45
  {
    if |p| < 20 || p[0] as int / 16 != 4 || p[0] as int % 16 < 5 then None
    else Some((AddrAt(p, 12), AddrAt(p, 16)))
  }

  datatype Ports = Ports(proto: LanProto, sport: U16, dport: U16)

  /** Protocol and ports; a later fragment has none to read. */
  function Transport(p: seq<Byte>): Option<Ports>
    requires |p| >= 20
  {
    var ihl := HeaderLen(p);
    if FragmentOffset(p) != 0 || ProtoOf(p[9]).None? || |p| < ihl + 4 then None
    else Some(Ports(ProtoOf(p[9]).value, Word(p, ihl), Word(p, ihl + 2)))
  }

  /** The ICMP types that quote the packet they are about: 3, 4, 5, 11 and 12. */
  predicate IsIcmpError(kind: Byte) { kind in {3, 4, 5, 11, 12} }

  datatype QuotedFlow = QuotedFlow(ports: Ports, dst: Addr)

  /** The flow of the packet an ICMP error quotes. */
  function QuotedTransport(p: seq<Byte>): Option<QuotedFlow>
    requires |p| >= 20
  {
    var ihl := HeaderLen(p);
    if |p| < ihl + 8 || !IsIcmpError(p[ihl]) then None
    else
      var inner := p[ihl + 8..];
      match Endpoints(inner)
      case None => None
      case Some((_, dst)) =>
        match Transport(inner)
        case None => None
        case Some(ports) => Some(QuotedFlow(ports, dst))
  }
}
