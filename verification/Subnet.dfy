/** A room's subnet and the addresses in it (`lan.rs`). */
module Subnet {
  import opened Wire

  // ---------------------------------------------------------------- addresses as numbers

  function Num(a: Addr): U32 {
    ((a.a as int * 256 + a.b as int) * 256 + a.c as int) * 256 + a.d as int
  }

  function FromNum(n: U32): Addr {
    Addr(n / 256 / 256 / 256, n / 256 / 256 % 256, n / 256 % 256, n % 256)
  }

  lemma NumRoundTrip(n: U32)
    ensures Num(FromNum(n)) == n
  {
  }

  lemma DigitsBack(hi: nat, lo: Byte)
    ensures (hi * 256 + lo) / 256 == hi && (hi * 256 + lo) % 256 == lo
  {
  }

  lemma FromNumBack(a: Addr)
    ensures FromNum(Num(a)) == a
  {
    DigitsBack(a.a, a.b);
    DigitsBack(a.a * 256 + a.b, a.c);
    DigitsBack((a.a * 256 + a.b) * 256 + a.c, a.d);
  }

  lemma NumInjective(a: Addr, b: Addr)
    requires Num(a) == Num(b)
    ensures a == b
  {
    hide Num, FromNum;
    FromNumBack(a);
    FromNumBack(b);
  }

  const BROADCAST := Addr(255, 255, 255, 255)
  const UNSPECIFIED := Addr(0, 0, 0, 0)

  predicate IsMulticast(a: Addr) { 224 <= a.a <= 239 }

  // ---------------------------------------------------------------- subnets

  const ALLOWED_RANGE := Addr(198, 18, 0, 0)
  const ALLOWED_SIZE := 0x2_0000

  /** How many addresses a prefix length of a room leaves: what the mask clears, plus one. */
  function HostSize(prefixLen: nat): (r: nat)
    requires 16 <= prefixLen <= 24
    ensures IsSize(r)
  {
    [0x1_0000, 0x8000, 0x4000, 0x2000, 0x1000, 0x800, 0x400, 0x200, 0x100][prefixLen - 16]
  }

  predicate IsSize(size: nat) { 256 <= size <= 0x1_0000 && size % 256 == 0 && ALLOWED_SIZE % size == 0 }

  lemma OnlyZero(d: int, size: nat)
    requires 0 - size < d * size < size
    ensures d == 0
  {
  }

  lemma DivUnique(q: int, size: nat, r: nat)
    requires r < size
    ensures (q * size + r) / size == q && (q * size + r) % size == r
  {
    var n := q * size + r;
    var d := n / size - q;
    assert d * size == r - n % size;
    OnlyZero(d, size);
  }

  lemma Mod256(m: nat, n: nat)
    ensures (256 * m + n) % 256 == n % 256 && (256 * m) % 256 == 0
  {
  }

  lemma Regroup(q: nat, size: nat) returns (m: nat)
    requires size % 256 == 0
    ensures q * size == 256 * m
  {
    var k := size / 256;
    assert size == 256 * k;
    m := q * k;
    assert q * (256 * k) == 256 * (q * k);
  }

  /** Masking an aligned prefix with a host part in it gives the prefix back. */
  lemma Masked(prefix: nat, host: nat, size: nat)
    requires IsSize(size) && prefix % size == 0 && host < size
    ensures (prefix + host) / size * size == prefix
    ensures prefix % 256 == 0 && (prefix + host) % 256 == host % 256
  {
    var q := prefix / size;
    assert prefix == q * size;
    DivUnique(q, size, host);
    var m := Regroup(q, size);
    Mod256(m, host);
  }

  /** What masking keeps is aligned, and at most a host part below. */
  lemma Masking(n: nat, size: nat)
    requires IsSize(size)
    ensures var m := n / size * size; m % size == 0 && m % 256 == 0 && m <= n < m + size
    ensures n % size % 256 == n % 256
  {
    var q, r := n / size, n % size;
    assert n == q * size + r;
    DivUnique(q, size, 0);
    var m := Regroup(q, size);
    Mod256(m, r);
  }

  /** And it is in the same /15. */
  lemma SameRange(n: nat, size: nat)
    requires IsSize(size)
    ensures n / size * size / ALLOWED_SIZE == n / ALLOWED_SIZE
  {
    DivMod(n, size);
    DivMod(ALLOWED_SIZE, size);
    InSameRange(n, n / size, n % size, size, ALLOWED_SIZE / size);
  }

  lemma InSameRange(n: nat, q: nat, r: nat, size: nat, j: nat)
    requires 0 < j && n == q * size + r && r < size && j * size == ALLOWED_SIZE
    ensures q * size / ALLOWED_SIZE == n / ALLOWED_SIZE
  {
    DivMod(q, j);
    TwoLevels(q, q / j, j, q % j, size, r);
  }

  lemma DivMod(n: nat, d: nat)
    requires d > 0
    ensures n == n / d * d + n % d && n % d < d
  {
  }

  lemma TwoLevels(q: nat, a: nat, j: nat, b: nat, size: nat, r: nat)
    requires b < j && r < size && j * size == ALLOWED_SIZE && q == a * j + b
    ensures q * size / ALLOWED_SIZE == a == (q * size + r) / ALLOWED_SIZE
  {
    Distribute(a, j, b, size);
    Mono(b + 1, j, size);
    DivUnique(a, ALLOWED_SIZE, b * size);
    DivUnique(a, ALLOWED_SIZE, b * size + r);
  }

  lemma Mono(x: nat, y: nat, size: nat)
    requires x <= y
    ensures x * size <= y * size
  {
  }

  lemma Distribute(a: nat, j: nat, b: nat, size: nat)
    ensures (a * j + b) * size == a * (j * size) + b * size && (b + 1) * size == b * size + size
  {
  }

  datatype RoomSubnet = RoomSubnet(prefix: Addr, prefixLen: nat) {

    /** What `New` builds: 8 to 16 host bits, inside 198.18.0.0/15, nothing below the mask. */
    predicate Valid() {
      && 16 <= prefixLen <= 24
      && Num(prefix) % HostSize(prefixLen) == 0
      && Num(prefix) / ALLOWED_SIZE * ALLOWED_SIZE == Num(ALLOWED_RANGE)
    }

    /** `addr & mask == prefix`. */
    predicate Contains(addr: Addr)
      requires Valid()
    {
      Num(addr) / HostSize(prefixLen) * HostSize(prefixLen) == Num(prefix)
    }

    /** `prefix | !mask`. */
    function Broadcast(): Addr
      requires Valid()
    {
      Fits(this, HostSize(prefixLen) - 1);
      FromNum(Num(prefix) + HostSize(prefixLen) - 1)
    }

    predicate IsBroadcast(addr: Addr)
      requires Valid()
    {
      addr == BROADCAST || addr == Broadcast() || IsMulticast(addr)
    }

    /** Neither .0 nor .255 at the end: to an old game those are broadcasts. */
    predicate IsAssignable(addr: Addr)
      requires Valid()
    {
      Contains(addr) && addr.d != 0 && addr.d != 255
    }

    predicate IsPseudoBroadcast(addr: Addr)
      requires Valid()
    {
      Contains(addr) && !IsBroadcast(addr) && !IsAssignable(addr)
    }

    /** `prefix | (host & !mask)`. */
    function WithHost(host: nat): Addr
      requires Valid()
    {
      Fits(this, host % HostSize(prefixLen));
      FromNum(Num(prefix) + host % HostSize(prefixLen))
    }
  }

  lemma Fits(s: RoomSubnet, host: nat)
    requires s.Valid() && host < HostSize(s.prefixLen)
    ensures Num(s.prefix) + host < 0x1_0000_0000
    ensures Num(FromNum(Num(s.prefix) + host)) == Num(s.prefix) + host
    ensures s.Contains(FromNum(Num(s.prefix) + host)) && FromNum(Num(s.prefix) + host).d == host % 256
  {
    Masked(Num(s.prefix), host, HostSize(s.prefixLen));
    NumRoundTrip(Num(s.prefix) + host);
  }

  /** The check on a subnet from the wire: only 198.18.0.0/15 is accepted. */
  function New(prefix: Addr, prefixLen: nat): (r: Option<RoomSubnet>)
    ensures r.Some? ==> r.value.Valid() && r.value.prefixLen == prefixLen && r.value.Contains(prefix)
    ensures r.None? <==> !(16 <= prefixLen <= 24) || Num(prefix) / ALLOWED_SIZE * ALLOWED_SIZE != Num(ALLOWED_RANGE)
  {
    if !(16 <= prefixLen <= 24) then None
    else
      MaskKept(prefix, HostSize(prefixLen));
      var masked := FromNum(Num(prefix) / HostSize(prefixLen) * HostSize(prefixLen));
      if Num(masked) / ALLOWED_SIZE * ALLOWED_SIZE != Num(ALLOWED_RANGE) then None
      else Some(RoomSubnet(masked, prefixLen))
  }

  lemma MaskKept(prefix: Addr, size: nat)
    requires IsSize(size)
    ensures var n := Num(prefix) / size * size;
      && n < 0x1_0000_0000 && Num(FromNum(n)) == n && n % size == 0 && n / ALLOWED_SIZE == Num(prefix) / ALLOWED_SIZE
  {
    Masking(Num(prefix), size);
    SameRange(Num(prefix), size);
    NumRoundTrip(Num(prefix) / size * size);
  }

  // ---------------------------------------------------------------- what a member may be given

  lemma WithHostIs(s: RoomSubnet, host: nat)
    requires s.Valid()
    ensures s.Contains(s.WithHost(host))
    ensures Num(s.WithHost(host)) == Num(s.prefix) + host % HostSize(s.prefixLen)
    ensures s.WithHost(host).d == host % 256
  {
    var size := HostSize(s.prefixLen);
    Fits(s, host % size);
    Masking(host, size);
  }

  /** No address a member may be given reaches everyone, and none is outside the benchmarking range. */
  lemma AssignableIsNoBroadcast(s: RoomSubnet, addr: Addr)
    requires s.Valid() && s.IsAssignable(addr)
    ensures !s.IsBroadcast(addr) && addr != UNSPECIFIED
    ensures Num(addr) / ALLOWED_SIZE * ALLOWED_SIZE == Num(ALLOWED_RANGE)
  {
    InRange(s, addr);
    BroadcastIs(s);
  }

  lemma InRange(s: RoomSubnet, addr: Addr)
    requires s.Valid() && s.Contains(addr)
    ensures Num(addr) / ALLOWED_SIZE * ALLOWED_SIZE == Num(ALLOWED_RANGE) && addr.a == 198
  {
    SameRange(Num(addr), HostSize(s.prefixLen));
    assert Num(addr) / ALLOWED_SIZE * ALLOWED_SIZE == Num(ALLOWED_RANGE);
  }

  lemma BroadcastIs(s: RoomSubnet)
    requires s.Valid()
    ensures s.Contains(s.Broadcast()) && s.Broadcast().d == 255
  {
    LastHost(s, HostSize(s.prefixLen));
  }

  lemma LastHost(s: RoomSubnet, size: nat)
    requires s.Valid() && size == HostSize(s.prefixLen)
    ensures s.Contains(FromNum(Num(s.prefix) + size - 1)) && FromNum(Num(s.prefix) + size - 1).d == 255
  {
    hide RoomSubnet.Contains, Num, FromNum, HostSize;
    LastByte(size);
    Fits(s, size - 1);
  }

  lemma LastByte(size: nat)
    requires IsSize(size)
    ensures (size - 1) % 256 == 255
  {
    Mod256(size / 256 - 1, 255);
  }

  /** Every address of the subnet is a member's to have, or some broadcast: nothing falls between. */
  lemma Trichotomy(s: RoomSubnet, addr: Addr)
    requires s.Valid() && s.Contains(addr)
    ensures s.IsAssignable(addr) <==> !s.IsBroadcast(addr) && !s.IsPseudoBroadcast(addr)
    ensures !(s.IsBroadcast(addr) && s.IsPseudoBroadcast(addr))
  {
    if s.IsAssignable(addr) {
      AssignableIsNoBroadcast(s, addr);
    }
  }

  // ---------------------------------------------------------------- the same in numbers

  /** Half as many hosts for each bit more of prefix, from 65536 at /16. */
  lemma HostSizeHalves(prefixLen: nat)
    requires 16 <= prefixLen <= 24
    ensures prefixLen == 16 ==> HostSize(prefixLen) == 65536
    ensures prefixLen < 24 ==> HostSize(prefixLen) == 2 * HostSize(prefixLen + 1)
  {
  }

  /** The subnet is its prefix and the HostSize - 1 addresses after it. */
  lemma ContainsIs(s: RoomSubnet, addr: Addr)
    requires s.Valid()
    ensures s.Contains(addr) <==> Num(s.prefix) <= Num(addr) < Num(s.prefix) + HostSize(s.prefixLen)
  {
    var size, n := HostSize(s.prefixLen), Num(addr);
    Masking(n, size);
    if Num(s.prefix) <= n < Num(s.prefix) + size {
      Masked(Num(s.prefix), n - Num(s.prefix), size);
    }
  }

  lemma BroadcastNum(s: RoomSubnet)
    requires s.Valid()
    ensures Num(s.Broadcast()) == Num(s.prefix) + HostSize(s.prefixLen) - 1 && s.IsBroadcast(s.Broadcast())
  {
    hide Num, FromNum, HostSize;
    Fits(s, HostSize(s.prefixLen) - 1);
  }

  /** What reaches everyone: 255.255.255.255, the subnet's last address, and multicast. */
  lemma ReachesAll(s: RoomSubnet, addr: Addr)
    requires s.Valid()
    ensures s.IsBroadcast(addr) <==>
              || addr == Addr(255, 255, 255, 255) || 224 <= addr.a <= 239
              || Num(addr) == Num(s.prefix) + HostSize(s.prefixLen) - 1
  {
    hide Num, FromNum, HostSize;
    Fits(s, HostSize(s.prefixLen) - 1);
    if Num(addr) == Num(s.prefix) + HostSize(s.prefixLen) - 1 {
      NumInjective(addr, s.Broadcast());
    }
  }

  /** What an old game takes for a broadcast: the .0 and .255 of the subnet, but its last address. */
  lemma OldBroadcastIs(s: RoomSubnet, addr: Addr)
    requires s.Valid()
    ensures s.IsPseudoBroadcast(addr) <==>
              && Num(s.prefix) <= Num(addr) < Num(s.prefix) + HostSize(s.prefixLen) - 1
              && (addr.d == 0 || addr.d == 255)
  {
    hide Num, HostSize, RoomSubnet.Contains, RoomSubnet.IsBroadcast;
    ContainsIs(s, addr);
    ReachesAll(s, addr);
    if s.Contains(addr) {
      InRange(s, addr);
    }
  }
}
