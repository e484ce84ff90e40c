/** The member table (`lan.rs`): identities, their addresses, and how a newcomer's is chosen. */
module Members {
  import opened Wire
  import opened Subnet

  const MAX_MEMBERS := 32
  const DERIVATIONS := 8

  datatype Member = Member(identity: Identity, address: Addr)

  datatype Refusal = Full | NotAllowed | NoAddress | Other(code: Byte)

  datatype Admission = Seated(address: Addr) | Refused(reason: Refusal)

  // ---------------------------------------------------------------- lookups

  function AddressOf(members: seq<Member>, identity: Identity): (r: Option<Addr>)
    ensures r.None? <==> forall m :: m in members ==> m.identity != identity
    ensures r.Some? ==> Member(identity, r.value) in members
  {
    if members == [] then None
    else if members[0].identity == identity then Some(members[0].address)
    else AddressOf(members[1..], identity)
  }

  function IdentityAt(members: seq<Member>, address: Addr): (r: Option<Identity>)
    ensures r.None? <==> forall m :: m in members ==> m.address != address
    ensures r.Some? ==> Member(r.value, address) in members
  {
    if members == [] then None
    else if members[0].address == address then Some(members[0].identity)
    else IdentityAt(members[1..], address)
  }

  predicate Taken(members: seq<Member>, address: Addr) { exists m :: m in members && m.address == address }

  // ---------------------------------------------------------------- the order addresses are tried in

  /** The candidate of one attempt, from the next two bytes of the identity. */
  function Derive(subnet: RoomSubnet, identity: Identity, attempt: nat): Addr
    requires subnet.Valid() && attempt < DERIVATIONS
  {
    subnet.WithHost(Word(identity, 2 * attempt))
  }

  /** How many addresses an identity tries: eight derivations, then every host but the last. */
  function TryCount(subnet: RoomSubnet): nat
    requires subnet.Valid()
  {
    DERIVATIONS + HostSize(subnet.prefixLen) - 2
  }

  function Try(subnet: RoomSubnet, identity: Identity, i: nat): Addr
    requires subnet.Valid() && i < TryCount(subnet)
  {
    if i < DERIVATIONS then Derive(subnet, identity, i) else subnet.WithHost(i - DERIVATIONS + 1)
  }

  predicate Free(subnet: RoomSubnet, members: seq<Member>, address: Addr)
    requires subnet.Valid()
  {
    subnet.IsAssignable(address) && !Taken(members, address)
  }

  /** The first try from `i` on that is free. */
  function FirstFree(subnet: RoomSubnet, members: seq<Member>, identity: Identity, i: nat): Option<nat>
    requires subnet.Valid() && i <= TryCount(subnet)
    decreases TryCount(subnet) - i
  {
    if i == TryCount(subnet) then None
    else if Free(subnet, members, Try(subnet, identity, i)) then Some(i)
    else FirstFree(subnet, members, identity, i + 1)
  }

  lemma {:induction false} FirstFreeIsFirst(subnet: RoomSubnet, members: seq<Member>, identity: Identity, i: nat)
    requires subnet.Valid() && i <= TryCount(subnet)
    ensures match FirstFree(subnet, members, identity, i)
      case None => forall j :: i <= j < TryCount(subnet) ==> !Free(subnet, members, Try(subnet, identity, j))
      case Some(k) =>
        && i <= k < TryCount(subnet) && Free(subnet, members, Try(subnet, identity, k))
        && forall j :: i <= j < k ==> !Free(subnet, members, Try(subnet, identity, j))
    decreases TryCount(subnet) - i
  {
    hide Free, Try, TryCount;
    if i < TryCount(subnet) && !Free(subnet, members, Try(subnet, identity, i)) {
      FirstFreeIsFirst(subnet, members, identity, i + 1);
    }
  }

  // ---------------------------------------------------------------- the table

  ghost predicate AllApart(members: seq<Member>) {
    forall i, j :: 0 <= i < j < |members| ==> Apart(members[i], members[j])
  }

  predicate Apart(m: Member, n: Member) { m.identity != n.identity && m.address != n.address }

  datatype Table = Table(subnet: RoomSubnet, capacity: nat, members: seq<Member>, epoch: U32) {

    /** What every table a host can reach satisfies. */
    ghost predicate Valid() {
      && subnet.Valid() && 1 <= capacity <= MAX_MEMBERS && |members| <= capacity
      && (AllApart(members))
      && (forall m :: m in members ==> subnet.IsAssignable(m.address))
    }

    function Admitted(identity: Identity): (Table, Admission)
      requires subnet.Valid()
    {
      match AddressOf(members, identity)
      case Some(address) => (this, Seated(address))
      case None =>
        if |members| >= capacity then (this, Refused(Full))
        else
          match FirstFree(subnet, members, identity, 0)
          case None => (this, Refused(NoAddress))
          case Some(i) =>
            assert i < TryCount(subnet) by { FirstFreeIsFirst(subnet, members, identity, 0); }
            var address := Try(subnet, identity, i);
            (this.(members := members + [Member(identity, address)], epoch := (epoch + 1) % 0x1_0000_0000),
             Seated(address))
    }

    function Removed(identity: Identity): Table {
      var kept := Without(members, identity);
      if |kept| == |members| then this else this.(members := kept, epoch := (epoch + 1) % 0x1_0000_0000)
    }
  }

  function Without(members: seq<Member>, identity: Identity): (r: seq<Member>)
    ensures |r| <= |members|
    ensures forall m :: m in r <==> m in members && m.identity != identity
  {
    if members == [] then []
    else (if members[0].identity == identity then [] else [members[0]]) + Without(members[1..], identity)
  }

  // ---------------------------------------------------------------- a room never runs out of addresses

  /** The numbers 1 to n. */
  function Hosts(n: nat): (s: set<int>)
    ensures forall h :: h in s <==> 1 <= h <= n
    ensures |s| == n
  {
    if n == 0 then {} else Hosts(n - 1) + {n}
  }

  function HostParts(subnet: RoomSubnet, members: seq<Member>): (s: set<int>)
    ensures |s| <= |members|
    ensures forall m :: m in members ==> Num(m.address) - Num(subnet.prefix) in s
  {
    if members == [] then {}
    else HostParts(subnet, members[1..]) + {Num(members[0].address) - Num(subnet.prefix)}
  }

  /** The pigeonhole: of n assignable hosts, fewer than n members leave one free. */
  lemma SomeHostFree(subnet: RoomSubnet, members: seq<Member>, n: nat) returns (h: nat)
    requires subnet.Valid() && |members| < n < 255
    ensures 1 <= h <= n && Free(subnet, members, subnet.WithHost(h))
  {
    hide HostSize, RoomSubnet.WithHost, HostParts, Num;
    h := Unused(HostParts(subnet, members), n);
    WithHostIs(subnet, h);
    SmallHost(subnet, h);
  }

  lemma Unused(used: set<int>, n: nat) returns (h: nat)
    requires |used| < n
    ensures 1 <= h <= n && h !in used
  {
    if Hosts(n) <= used {
      SubsetSize(Hosts(n), used);
      assert false;
    }
    h :| h in Hosts(n) && h !in used;
  }

  lemma SmallHost(subnet: RoomSubnet, h: nat)
    requires subnet.Valid() && h < 256
    ensures h % HostSize(subnet.prefixLen) == h
  {
    DivUnique(0, HostSize(subnet.prefixLen), h);
  }

  /** So seating fails for want of an address never: only a full room, or a stranger's absence, refuses. */
  lemma {:induction false} SomeTryFree(t: Table, identity: Identity)
    requires t.subnet.Valid() && |t.members| < MAX_MEMBERS
    ensures FirstFree(t.subnet, t.members, identity, 0).Some?
  {
    hide Free, FirstFree, RoomSubnet.WithHost, HostSize;
    FirstFreeIsFirst(t.subnet, t.members, identity, 0);
    var h := SomeHostFree(t.subnet, t.members, MAX_MEMBERS);
    assert Try(t.subnet, identity, DERIVATIONS + h - 1) == t.subnet.WithHost(h);
  }

  // ---------------------------------------------------------------- every reachable table

  /** `address` is the first free one in `identity`'s order. */
  ghost predicate FirstChoice(t: Table, identity: Identity, address: Addr)
    requires t.subnet.Valid()
  {
    exists k: nat :: ChosenAt(t, identity, address, k)
  }

  ghost predicate ChosenAt(t: Table, identity: Identity, address: Addr, k: nat)
    requires t.subnet.Valid()
  {
    && k < TryCount(t.subnet) && Try(t.subnet, identity, k) == address && Free(t.subnet, t.members, address)
    && forall j :: 0 <= j < k ==> !Free(t.subnet, t.members, Try(t.subnet, identity, j))
  }

  /**
   Seating refuses exactly a stranger to a full room, never for want of an address.  Whom it seats
   keeps the address they have, or gets the first free one in their own order; the table stays
   one with identities and addresses pairwise apart and no address any broadcast.
   */
  lemma {:induction false} AdmitMeets(t: Table, identity: Identity)
    requires t.Valid()
    ensures var (after, result) := t.Admitted(identity);
      && after.Valid() && after.subnet == t.subnet && after.capacity == t.capacity
      && (result.Refused? <==> AddressOf(t.members, identity).None? && |t.members| == t.capacity)
      && (result.Refused? ==> result == Refused(Full) && after == t)
      && (result.Seated? ==>
            && AddressOf(after.members, identity) == Some(result.address)
            && t.subnet.IsAssignable(result.address) && !t.subnet.IsBroadcast(result.address)
            && if AddressOf(t.members, identity).Some? then after == t
               else && after.members == t.members + [Member(identity, result.address)]
                    && after.epoch == (t.epoch + 1) % 0x1_0000_0000
                    && FirstChoice(t, identity, result.address))
  {
    hide RoomSubnet.IsBroadcast, Try, AllApart;
    match AddressOf(t.members, identity)
    case Some(address) =>
      AssignableIsNoBroadcast(t.subnet, address);
    case None =>
      if |t.members| < t.capacity {
        SomeTryFree(t, identity);
        FirstFreeIsFirst(t.subnet, t.members, identity, 0);
        var k := FirstFree(t.subnet, t.members, identity, 0).value;
        var address := Try(t.subnet, identity, k);
        assert ChosenAt(t, identity, address, k);
        AssignableIsNoBroadcast(t.subnet, address);
        AppendApart(t, Member(identity, address));
      }
  }

  lemma AppendApart(t: Table, m: Member)
    requires t.Valid() && |t.members| < t.capacity
    requires AddressOf(t.members, m.identity).None? && Free(t.subnet, t.members, m.address)
    ensures t.(members := t.members + [m], epoch := (t.epoch + 1) % 0x1_0000_0000).Valid()
    ensures AddressOf(t.members + [m], m.identity) == Some(m.address)
  {
    hide RoomSubnet.Valid, RoomSubnet.IsAssignable, AddressOf;
    assert m in t.members + [m];
    forall i | 0 <= i < |t.members| ensures Apart(t.members[i], m) {
      assert t.members[i] in t.members;
    }
    UniqueAddress(t.members + [m], m);
  }

  lemma {:induction false} UniqueAddress(members: seq<Member>, m: Member)
    requires m in members
    requires AllApart(members)
    ensures AddressOf(members, m.identity) == Some(m.address) && IdentityAt(members, m.address) == Some(m.identity)
  {
    TailApart(members);
    if members[0] != m {
      UniqueAddress(members[1..], m);
    }
  }

  // ---------------------------------------------------------------- the order in numbers

  /** The host part of the `k`-th try: two bytes of the identity for each of the first eight, then 1, 2, 3. */
  function HostTried(identity: Identity, size: nat, k: nat): nat
    requires size > 0
  {
    if k < 8 then (256 * identity[2 * k] + identity[2 * k + 1]) % size else k - 7
  }

  lemma TryIs(subnet: RoomSubnet, identity: Identity, k: nat)
    requires subnet.Valid() && k < TryCount(subnet)
    ensures TryCount(subnet) == HostSize(subnet.prefixLen) + 6
    ensures Num(Try(subnet, identity, k)) == Num(subnet.prefix) + HostTried(identity, HostSize(subnet.prefixLen), k)
    ensures Try(subnet, identity, k).d == HostTried(identity, HostSize(subnet.prefixLen), k) % 256
  {
    hide Num, HostSize, RoomSubnet.WithHost;
    if k < 8 {
      WithHostIs(subnet, Word(identity, 2 * k));
      Masking(Word(identity, 2 * k), HostSize(subnet.prefixLen));
    } else {
      WithHostIs(subnet, k - 7);
      DivUnique(0, HostSize(subnet.prefixLen), k - 7);
    }
  }

  /** The host part `h` may be given, and no member has it. */
  predicate HostFree(subnet: RoomSubnet, members: seq<Member>, h: nat) {
    h % 256 != 0 && h % 256 != 255 && forall m :: m in members ==> Num(m.address) != Num(subnet.prefix) + h
  }

  lemma FreeIs(subnet: RoomSubnet, members: seq<Member>, identity: Identity, k: nat)
    requires subnet.Valid() && k < TryCount(subnet)
    ensures Free(subnet, members, Try(subnet, identity, k))
       <==> HostFree(subnet, members, HostTried(identity, HostSize(subnet.prefixLen), k))
  {
    hide Try, HostTried, Num, HostSize;
    var address := Try(subnet, identity, k);
    TryIs(subnet, identity, k);
    TryInside(subnet, identity, k);
    forall m | m in members && Num(m.address) == Num(address) ensures m.address == address {
      NumInjective(m.address, address);
    }
  }

  lemma TryInside(subnet: RoomSubnet, identity: Identity, k: nat)
    requires subnet.Valid() && k < TryCount(subnet)
    ensures subnet.Contains(Try(subnet, identity, k))
  {
    hide RoomSubnet.Contains, RoomSubnet.WithHost;
    if k < 8 {
      WithHostIs(subnet, Word(identity, 2 * k));
    } else {
      WithHostIs(subnet, k - 7);
    }
  }

  /** The first host part, in the order of `HostTried`, that is free. */
  predicate FirstHost(t: Table, identity: Identity, k: nat)
    requires t.subnet.Valid()
  {
    var size := HostSize(t.subnet.prefixLen);
    && k < size + 6 && HostFree(t.subnet, t.members, HostTried(identity, size, k))
    && forall j :: 0 <= j < k ==> !HostFree(t.subnet, t.members, HostTried(identity, size, j))
  }

  predicate IsHost(subnet: RoomSubnet, identity: Identity, k: nat, address: Addr)
    requires subnet.Valid()
  {
    Num(address) == Num(subnet.prefix) + HostTried(identity, HostSize(subnet.prefixLen), k)
  }

  /** A newcomer is given the prefix and the first host part, in that order, that is free. */
  lemma {:induction false} SeatedAtFirstHost(t: Table, identity: Identity)
    requires t.Valid() && AddressOf(t.members, identity).None? && |t.members| < t.capacity
    ensures var result := t.Admitted(identity).1;
      result.Seated? && exists k: nat :: FirstHost(t, identity, k) && IsHost(t.subnet, identity, k, result.address)
  {
    hide Table.Admitted, AllApart, Free, HostFree, HostTried, Try, HostSize;
    SeatedNext(t, identity);
    var address := t.Admitted(identity).1.address;
    var k: nat :| ChosenAt(t, identity, address, k);
    TryIs(t.subnet, identity, k);
    forall j | 0 <= j <= k
      ensures Free(t.subnet, t.members, Try(t.subnet, identity, j))
         <==> HostFree(t.subnet, t.members, HostTried(identity, HostSize(t.subnet.prefixLen), j))
    {
      FreeIs(t.subnet, t.members, identity, j);
    }
    assert FirstHost(t, identity, k) && IsHost(t.subnet, identity, k, address);
  }

  /** In a valid table the two lookups are each other's inverse. */
  lemma LookupsAgree(t: Table, m: Member)
    requires t.Valid()
    ensures m in t.members <==> AddressOf(t.members, m.identity) == Some(m.address)
    ensures m in t.members <==> IdentityAt(t.members, m.address) == Some(m.identity)
  {
    if m in t.members {
      UniqueAddress(t.members, m);
    }
  }

  /**
   A member that left and comes back never gets a less preferred address than one that is free:
   in particular, while its old address is free, one at or before it in its order.
   */
  lemma {:induction false} ReturnNoWorse(t: Table, identity: Identity, j: nat)
    requires t.Valid() && AddressOf(t.members, identity).None? && |t.members| < t.capacity
    requires j < TryCount(t.subnet) && Free(t.subnet, t.members, Try(t.subnet, identity, j))
    ensures var r := t.Admitted(identity).1;
      r.Seated? && exists k: nat :: k <= j && ChosenAt(t, identity, r.address, k)
  {
    AdmitMeets(t, identity);
    var address := t.Admitted(identity).1.address;
    var k :| ChosenAt(t, identity, address, k);
    ChoiceAtMost(t, identity, address, k, j);
  }

  /**
   It gets its old address back exactly if that is the first free one in its order: free, and
   everything it would rather have still taken.
   */
  lemma {:induction false} ReturnsToOld(t: Table, identity: Identity, before: Addr)
    requires t.Valid() && AddressOf(t.members, identity).None? && |t.members| < t.capacity
    ensures t.Admitted(identity).1 == Seated(before) <==> FirstChoice(t, identity, before)
  {
    AdmitMeets(t, identity);
    var address := t.Admitted(identity).1.address;
    var k: nat :| ChosenAt(t, identity, address, k);
    if FirstChoice(t, identity, before) {
      var j: nat :| ChosenAt(t, identity, before, j);
      ChoiceAtMost(t, identity, address, k, j);
      ChoiceAtMost(t, identity, before, j, k);
    }
  }

  /** Two members that ask for the same address first; the second to come leaves last, and comes back. */
  function Swap(a: Identity, b: Identity): seq<TableOp> { [Admit(b), Admit(a), Remove(b), Remove(a), Admit(a)] }

  /**
   So a returning member may lose a free address, in any room with two seats left: `a` came while
   `b` held the one it would rather have, and once both have left, that is what it gets, though its
   old one is free.
   */
  lemma {:induction false} OldAddressLost(t: Table, a: Identity, b: Identity)
    requires t.Valid() && |t.members| + 2 <= t.capacity && a != b
    requires AddressOf(t.members, a).None? && AddressOf(t.members, b).None?
    requires Try(t.subnet, a, 0) == Try(t.subnet, b, 0) && Free(t.subnet, t.members, Try(t.subnet, a, 0))
    ensures Run(t, Swap(a, b)).Valid()
    ensures var before, after, x := Run(t, Swap(a, b)[..2]), Run(t, Swap(a, b)), Try(t.subnet, a, 0);
      && after.members == t.members + [Member(a, x)] && AddressOf(after.members, a) == Some(x)
      && AddressOf(before.members, a).Some? && AddressOf(before.members, a).value != x
      && Free(t.subnet, after.members, AddressOf(before.members, a).value)
  {
    hide Table.Admitted, Table.Removed, AllApart, Run, Without, Try, TryCount, Free, Taken, Swap, AddressOf;
    RunValid(t, Swap(a, b));
    RunIs(t, a, b);
    SwapSteps(t, a, b);
  }

  lemma {:induction false} SwapSteps(t: Table, a: Identity, b: Identity)
    requires t.Valid() && |t.members| + 2 <= t.capacity && a != b
    requires AddressOf(t.members, a).None? && AddressOf(t.members, b).None?
    requires Try(t.subnet, a, 0) == Try(t.subnet, b, 0) && Free(t.subnet, t.members, Try(t.subnet, a, 0))
    ensures t.Admitted(b).0.subnet == t.subnet && t.Admitted(b).0.Admitted(a).0.subnet == t.subnet
    ensures var two, x := t.Admitted(b).0.Admitted(a).0, Try(t.subnet, a, 0);
      var after := two.Removed(b).Removed(a).Admitted(a).0;
      && after.members == t.members + [Member(a, x)] && AddressOf(after.members, a) == Some(x)
      && AddressOf(two.members, a).Some? && AddressOf(two.members, a).value != x
      && Free(t.subnet, after.members, AddressOf(two.members, a).value)
  {
    hide Table.Admitted, Table.Removed, AllApart, Without, Try, Free, Taken, AddressOf;
    TwoCome(t, a, b);
    var x, two := Try(t.subnet, a, 0), t.Admitted(b).0.Admitted(a).0;
    var y := AddressOf(two.members, a).value;
    BothLeave(two, t.members, a, b, x, y);
    FirstChoiceFree(two.Removed(b).Removed(a), a);
    FreeBeside(t.subnet, t.members, Member(a, x), y);
  }

  lemma FreeBeside(subnet: RoomSubnet, members: seq<Member>, m: Member, address: Addr)
    requires subnet.Valid() && Free(subnet, members, address) && m.address != address
    ensures Free(subnet, members + [m], address)
  {
  }

  /** The one that comes second gets an address it would rather not. */
  lemma {:induction false} TwoCome(t: Table, a: Identity, b: Identity)
    requires t.Valid() && |t.members| + 2 <= t.capacity && a != b
    requires AddressOf(t.members, a).None? && AddressOf(t.members, b).None?
    requires Try(t.subnet, a, 0) == Try(t.subnet, b, 0) && Free(t.subnet, t.members, Try(t.subnet, a, 0))
    ensures t.Admitted(b).0.subnet == t.subnet
    ensures var two, x := t.Admitted(b).0.Admitted(a).0, Try(t.subnet, a, 0);
      && two.Valid() && two.subnet == t.subnet && two.capacity == t.capacity && AddressOf(two.members, a).Some?
      && var y := AddressOf(two.members, a).value;
         two.members == t.members + [Member(b, x), Member(a, y)] && y != x && Free(t.subnet, t.members, y)
  {
    hide Table.Admitted, Table.Valid, AllApart, Try, FirstChoice, Free, Taken, AddressOf;
    FirstChoiceFree(t, b);
    var one, x := t.Admitted(b).0, Try(t.subnet, a, 0);
    NoAddressBeside(t.members, Member(b, x), a);
    SeatedNext(one, a);
    var y := one.Admitted(a).1.address;
    NotTaken(one, t.members, a, y, Member(b, x));
  }

  /** A newcomer, while there is room. */
  lemma {:induction false} SeatedNext(t: Table, identity: Identity)
    requires t.Valid() && AddressOf(t.members, identity).None? && |t.members| < t.capacity
    ensures var (after, result) := t.Admitted(identity);
      && after.Valid() && after.subnet == t.subnet && after.capacity == t.capacity && result.Seated?
      && after.members == t.members + [Member(identity, result.address)]
      && AddressOf(after.members, identity) == Some(result.address) && FirstChoice(t, identity, result.address)
  {
    hide AllApart, FirstChoice;
    AdmitMeets(t, identity);
  }

  lemma {:induction false} NoAddressBeside(members: seq<Member>, m: Member, identity: Identity)
    requires m.identity != identity && AddressOf(members, identity).None?
    ensures AddressOf(members + [m], identity).None?
  {
  }

  lemma NotTaken(t: Table, before: seq<Member>, identity: Identity, address: Addr, last: Member)
    requires t.subnet.Valid() && FirstChoice(t, identity, address) && t.members == before + [last]
    ensures Free(t.subnet, before, address) && last.address != address
  {
    assert last in t.members && forall m :: m in before ==> m in t.members;
  }

  /** There are such identities for every subnet: any two that start with the same two bytes, neither 0 nor 255. */
  lemma SomeSwap(subnet: RoomSubnet, a: Identity, b: Identity)
    requires subnet.Valid() && a[0] == b[0] && a[1] == b[1] && 0 < a[1] < 255
    ensures Try(subnet, a, 0) == Try(subnet, b, 0) && subnet.IsAssignable(Try(subnet, a, 0))
  {
    WithHostIs(subnet, Word(a, 0));
  }

  /** Whoever comes gets what it asks for first, if that is free. */
  lemma {:induction false} FirstChoiceFree(t: Table, identity: Identity)
    requires t.Valid() && |t.members| < t.capacity && AddressOf(t.members, identity).None?
    requires Free(t.subnet, t.members, Try(t.subnet, identity, 0))
    ensures t.Admitted(identity).0.Valid() && t.Admitted(identity).0.subnet == t.subnet
    ensures t.Admitted(identity).0.capacity == t.capacity
    ensures t.Admitted(identity).0.members == t.members + [Member(identity, Try(t.subnet, identity, 0))]
    ensures AddressOf(t.Admitted(identity).0.members, identity) == Some(Try(t.subnet, identity, 0))
  {
    AdmitMeets(t, identity);
    var address := t.Admitted(identity).1.address;
    var k: nat :| ChosenAt(t, identity, address, k);
    ChoiceAtMost(t, identity, address, k, 0);
  }

  lemma {:induction false} BothLeave(t: Table, others: seq<Member>, a: Identity, b: Identity, x: Addr, y: Addr)
    requires t.Valid() && a != b && t.members == others + [Member(b, x), Member(a, y)]
    requires AddressOf(others, a).None? && AddressOf(others, b).None?
    ensures var left := t.Removed(b).Removed(a);
      left.Valid() && left.members == others && left.subnet == t.subnet && left.capacity == t.capacity
  {
    hide Table.Valid, AllApart, Without;
    RemoveMeets(t, b);
    RemoveMeets(t.Removed(b), a);
    TwoLeave(others, a, b, x, y);
    assert t.Removed(b).members == others + [Member(a, y)];
  }

  lemma {:induction false} TwoLeave(others: seq<Member>, a: Identity, b: Identity, x: Addr, y: Addr)
    requires a != b && Lacks(others, a) && Lacks(others, b)
    ensures Without(others + [Member(b, x), Member(a, y)], b) == others + [Member(a, y)]
    ensures Without(others + [Member(a, y)], a) == others
  {
    var last := [Member(b, x), Member(a, y)];
    WithoutLast(others, last, b);
    WithoutLast(others, [Member(a, y)], a);
    assert last[1..] == [Member(a, y)] && [Member(a, y)][1..] == [];
    assert Without([Member(a, y)], b) == [Member(a, y)] && Without(last, b) == [Member(a, y)];
    assert Without([Member(a, y)], a) == [];
  }

  predicate Lacks(members: seq<Member>, identity: Identity) {
    forall i :: 0 <= i < |members| ==> members[i].identity != identity
  }

  /** Taking out one who is not among the first. */
  lemma {:induction false} WithoutLast(others: seq<Member>, last: seq<Member>, identity: Identity)
    requires Lacks(others, identity)
    ensures Without(others + last, identity) == others + Without(last, identity)
  {
    hide Without;
    if others == [] {
      assert others + last == last;
    } else {
      var m, rest := others[0], others[1..];
      WithoutLast(rest, last, identity);
      WithoutOnto(m, rest + last, identity);
      assert others + last == [m] + (rest + last);
      assert others + Without(last, identity) == [m] + (rest + Without(last, identity));
    }
  }

  lemma {:induction false} WithoutOnto(m: Member, rest: seq<Member>, identity: Identity)
    requires m.identity != identity
    ensures Without([m] + rest, identity) == [m] + Without(rest, identity)
  {
    assert ([m] + rest)[1..] == rest;
  }

  lemma {:induction false} RunIs(t: Table, a: Identity, b: Identity)
    requires t.subnet.Valid()
    ensures t.Admitted(b).0.subnet == t.subnet && t.Admitted(b).0.Admitted(a).0.subnet == t.subnet
    ensures Run(t, Swap(a, b)[..2]) == t.Admitted(b).0.Admitted(a).0
    ensures Run(t, Swap(a, b)) == t.Admitted(b).0.Admitted(a).0.Removed(b).Removed(a).Admitted(a).0
  {
    hide Table.Admitted, Table.Removed;
    var ops := Swap(a, b);
    AdmitKeepsSubnet(t, b);
    AdmitKeepsSubnet(t.Admitted(b).0, a);
    var two := t.Admitted(b).0.Admitted(a).0;
    RemoveKeepsSubnet(two, b);
    RemoveKeepsSubnet(two.Removed(b), a);
    assert ops[..2] == [Admit(b), Admit(a)] && ops[..2][1..] == [Admit(a)] && [Admit(a)][1..] == [];
    assert Run(two, []) == two && Run(t.Admitted(b).0, [Admit(a)]) == two;
    assert ops[1..] == [Admit(a), Remove(b), Remove(a), Admit(a)];
    assert ops[1..][1..] == [Remove(b), Remove(a), Admit(a)];
    assert [Remove(b), Remove(a), Admit(a)][1..] == [Remove(a), Admit(a)] && [Remove(a), Admit(a)][1..] == [Admit(a)];
    var four := two.Removed(b).Removed(a);
    assert Run(four, [Admit(a)]) == four.Admitted(a).0;
    assert Run(two.Removed(b), [Remove(a), Admit(a)]) == four.Admitted(a).0;
    assert Run(two, [Remove(b), Remove(a), Admit(a)]) == four.Admitted(a).0;
  }

  lemma AdmitKeepsSubnet(t: Table, identity: Identity)
    requires t.subnet.Valid()
    ensures t.Admitted(identity).0.subnet == t.subnet
  {
  }

  lemma RemoveKeepsSubnet(t: Table, identity: Identity)
    ensures t.Removed(identity).subnet == t.subnet
  {
  }

  lemma ChoiceAtMost(t: Table, identity: Identity, address: Addr, k: nat, j: nat)
    requires t.subnet.Valid() && ChosenAt(t, identity, address, k)
    requires j < TryCount(t.subnet) && Free(t.subnet, t.members, Try(t.subnet, identity, j))
    ensures k <= j
  {
  }

  lemma {:induction false} WithoutApart(members: seq<Member>, identity: Identity)
    requires AllApart(members)
    ensures AllApart(Without(members, identity))
    ensures |Without(members, identity)| == |members| <==> AddressOf(members, identity).None?
    ensures |Without(members, identity)| == |members| ==> Without(members, identity) == members
  {
    if members != [] {
      TailApart(members);
      WithoutApart(members[1..], identity);
      var m, rest := members[0], Without(members[1..], identity);
      assert members == [m] + members[1..];
      hide AllApart, Apart;
      OntoApart(m, rest);
    }
  }

  lemma OntoApart(m: Member, rest: seq<Member>)
    requires AllApart(rest) && forall n :: n in rest ==> Apart(m, n)
    ensures AllApart([m] + rest)
  {
    var all := [m] + rest;
    forall i, j | 0 <= i < j < |all| ensures Apart(all[i], all[j]) {
      assert all[j] == rest[j - 1];
      if i > 0 {
        assert all[i] == rest[i - 1];
      }
    }
  }

  lemma TailApart(members: seq<Member>)
    requires members != [] && AllApart(members)
    ensures AllApart(members[1..])
    ensures forall m :: m in members[1..] ==> Apart(members[0], m)
  {
    forall m | m in members[1..] ensures Apart(members[0], m) {
      var i :| 1 <= i < |members| && members[i] == m;
    }
  }

  /** Unseating takes out that identity and nobody else, counting a change only if there was one. */
  lemma {:induction false} RemoveMeets(t: Table, identity: Identity)
    requires t.Valid()
    ensures var after := t.Removed(identity);
      && after.Valid() && after.subnet == t.subnet && after.capacity == t.capacity
      && AddressOf(after.members, identity).None?
      && (forall m :: m in after.members <==> m in t.members && m.identity != identity)
      && (AddressOf(t.members, identity).None? ==> after == t)
      && (AddressOf(t.members, identity).Some? ==>
            |after.members| < |t.members| && after.epoch == (t.epoch + 1) % 0x1_0000_0000)
  {
    hide AllApart, Without, AddressOf, RoomSubnet.IsAssignable, RoomSubnet.Valid;
    WithoutApart(t.members, identity);
    assert t.Removed(identity).members == Without(t.members, identity);
  }

  datatype TableOp = Admit(identity: Identity) | Remove(identity: Identity)

  function Run(t: Table, ops: seq<TableOp>): Table
    requires t.subnet.Valid()
    decreases |ops|
  {
    if ops == [] then t
    else
      var op := ops[0];
      var next := if op.Admit? then t.Admitted(op.identity).0 else t.Removed(op.identity);
      assert next.subnet == t.subnet;
      Run(next, ops[1..])
  }

  /** The table `MemberTable::new` makes: any capacity asked for, clamped. */
  function NewTable(subnet: RoomSubnet, capacity: nat): Table {
    Table(subnet, if capacity < 1 then 1 else if capacity > MAX_MEMBERS then MAX_MEMBERS else capacity, [], 0)
  }

  /** Over every run of seatings and unseatings the table stays valid, so every seating keeps AdmitMeets. */
  lemma {:induction false} RunValid(t: Table, ops: seq<TableOp>)
    requires t.Valid()
    ensures Run(t, ops).Valid() && Run(t, ops).subnet == t.subnet
    decreases |ops|
  {
    if ops != [] {
      AdmitMeets(t, ops[0].identity);
      RemoveMeets(t, ops[0].identity);
      RunValid(if ops[0].Admit? then t.Admitted(ops[0].identity).0 else t.Removed(ops[0].identity), ops[1..]);
    }
  }

  lemma {:induction false} ReachableValid(subnet: RoomSubnet, capacity: nat, ops: seq<TableOp>)
    requires subnet.Valid()
    ensures Run(NewTable(subnet, capacity), ops).Valid()
  {
    RunValid(NewTable(subnet, capacity), ops);
  }

  // ---------------------------------------------------------------- the class

  class MemberTable {
    const subnet: RoomSubnet
    const capacity: nat
    var members: seq<Member>
    var epoch: U32

    function Model(): Table
      reads this
    {
      Table(subnet, capacity, members, epoch)
    }

    constructor (subnet: RoomSubnet, capacity: nat)
      ensures Model() == NewTable(subnet, capacity)
    {
      this.subnet := subnet;
      this.capacity := if capacity < 1 then 1 else if capacity > MAX_MEMBERS then MAX_MEMBERS else capacity;
      members, epoch := [], 0;
    }

    /** Seat `identity`, or say why not. */
    method Admit(identity: Identity) returns (r: Admission)
      requires subnet.Valid()
      modifies this
      ensures (Model(), r) == old(Model()).Admitted(identity)
    {
      hide Try, HostSize, RoomSubnet.Valid, RoomSubnet.IsAssignable, AddressOf;
      var known := AddressOf(members, identity);
      if known.Some? {
        return Seated(known.value);
      }
      if |members| >= capacity {
        return Refused(Full);
      }
      var i := 0;
      while i < TryCount(subnet)
        invariant i <= TryCount(subnet)
        invariant FirstFree(subnet, members, identity, 0) == FirstFree(subnet, members, identity, i)
        invariant members == old(members) && epoch == old(epoch)
      {
        var address := Try(subnet, identity, i);
        if subnet.IsAssignable(address) && forall m | m in members :: m.address != address {
          members := members + [Member(identity, address)];
          epoch := (epoch + 1) % 0x1_0000_0000;
          return Seated(address);
        }
        i := i + 1;
      }
      r := Refused(NoAddress);
    }

    /** Unseat `identity`; whether anything changed. */
    method Remove(identity: Identity) returns (changed: bool)
      modifies this
      ensures Model() == old(Model()).Removed(identity)
      ensures changed == (|members| != |old(members)|)
    {
      var before := |members|;
      members := Without(members, identity);
      changed := |members| != before;
      if changed {
        epoch := (epoch + 1) % 0x1_0000_0000;
      } else {
        WithoutSame(old(members), identity);
      }
    }
  }

  lemma {:induction false} WithoutSame(members: seq<Member>, identity: Identity)
    requires |Without(members, identity)| == |members|
    ensures Without(members, identity) == members
  {
    if members != [] {
      WithoutSame(members[1..], identity);
    }
  }
}
