/**
 The unanswered-connection detector (`lan_firewall.rs`): a connection the room delivered, that
 this machine's stack never answered, is evidence of a firewall.
 */
module ConnectWatch {
  import opened Wire
  import opened Ipv4
  import Filter

  /** Milliseconds. */
  const ANSWER_GRACE := 3_000
  const REMEMBER := 600_000
  const PENDING_CAP := 512

  // ---------------------------------------------------------------- segments

  datatype Segment = Segment(src: Addr, dst: Addr, sport: U16, dport: U16, flags: Byte) {
    predicate Syn() { flags as int / 2 % 2 == 1 }
    predicate Reset() { flags as int / 4 % 2 == 1 }
    predicate Ack() { flags as int / 16 % 2 == 1 }

    /** A new connection's first segment. */
    predicate Opens() { Syn() && !Ack() }

    /** A SYN-ACK or a reset: either means the packet reached the stack. */
    predicate Answers() { Reset() || (Syn() && Ack()) }

    function Inbound(): Conn { Conn(src, sport, dport) }

    function Outbound(): Conn { Conn(dst, dport, sport) }
  }

  /** Not a later fragment, and TCP as far as the flags byte. */
  function SegmentOf(p: seq<Byte>): Option<Segment> {
    match Endpoints(p)
    case None => None
    case Some((src, dst)) =>
      var ihl := HeaderLen(p);
      if p[9] != PROTO_TCP || FragmentOffset(p) != 0 || |p| < ihl + 14 then None
      else Some(Segment(src, dst, Word(p, ihl), Word(p, ihl + 2), p[ihl + 13]))
  }

  /** The member, its port, and this machine's. */
  datatype Conn = Conn(from: Addr, theirs: U16, port: U16)

  datatype Dropped = Dropped(port: U16, from: Addr, at: nat)

  // ---------------------------------------------------------------- what is waited for

  type Pending = map<Conn, nat>

  function Waiting(pending: Pending, now: nat): (r: Pending)
    ensures forall c :: c in r <==> c in pending && Filter.Since(now, pending[c]) < ANSWER_GRACE
    ensures forall c :: c in r ==> r[c] == pending[c]
  {
    map c | c in pending && Filter.Since(now, pending[c]) < ANSWER_GRACE :: pending[c]
  }

  function Overdue(pending: Pending, now: nat): (r: set<Conn>)
    ensures forall c :: c in r <==> c in pending && Filter.Since(now, pending[c]) >= ANSWER_GRACE
  {
    set c | c in pending && Filter.Since(now, pending[c]) >= ANSWER_GRACE
  }

  /** Watched from its first segment on, if there is room. */
  function Watched(pending: Pending, p: seq<Byte>, now: nat): Pending {
    match SegmentOf(p)
    case None => pending
    case Some(s) =>
      if s.Opens() && |pending| < PENDING_CAP && s.Inbound() !in pending then pending[s.Inbound() := now] else pending
  }

  function Answered(pending: Pending, p: seq<Byte>): Pending {
    match SegmentOf(p)
    case None => pending
    case Some(s) => if s.Answers() then pending - {s.Outbound()} else pending
  }

  // ---------------------------------------------------------------- the class

  /** `found` says of each of `conns`, once, that it went unanswered. */
  predicate Reports(found: seq<Dropped>, conns: set<Conn>, now: nat) {
    && |found| == |conns|
    && (forall d :: d in found ==> exists c :: c in conns && d == Dropped(c.port, c.from, now))
    && (forall c :: c in conns ==> Dropped(c.port, c.from, now) in found)
  }

  predicate About(found: seq<Dropped>, port: U16) { exists d :: d in found && d.port == port }

  /** One entry a port: the latest found, else what is remembered still. */
  predicate Remembers(before: map<U16, Dropped>, after: map<U16, Dropped>, found: seq<Dropped>, now: nat) {
    && (forall p :: p in after <==> About(found, p) || (p in before && Filter.Since(now, before[p].at) < REMEMBER))
    && (forall p :: p in after ==>
          if About(found, p) then after[p] in found && after[p].port == p else after[p] == before[p])
  }

  /** Each of `found` in its port's place, the last to come. */
  predicate Inserted(before: map<U16, Dropped>, after: map<U16, Dropped>, found: seq<Dropped>) {
    && (forall p :: p in after <==> p in before || About(found, p))
    && (forall p :: p in after ==>
          if About(found, p) then after[p] in found && after[p].port == p else after[p] == before[p])
  }

  lemma OneMoreFound(before: map<U16, Dropped>, after: map<U16, Dropped>, found: seq<Dropped>, i: nat)
    requires i < |found| && Inserted(before, after, found[..i])
    ensures Inserted(before, after[found[i].port := found[i]], found[..i + 1])
  {
    assert found[..i + 1] == found[..i] + [found[i]];
    assert found[i] in found[..i + 1];
    forall p ensures About(found[..i + 1], p) <==> About(found[..i], p) || found[i].port == p {
      if About(found[..i], p) {
        var d :| d in found[..i] && d.port == p;
        assert d in found[..i + 1];
      }
    }
  }

  lemma Retained(before: map<U16, Dropped>, after: map<U16, Dropped>, found: seq<Dropped>, now: nat)
    requires Inserted(before, after, found) && forall d :: d in found ==> d.at == now
    ensures Remembers(before, map p | p in after && Filter.Since(now, after[p].at) < REMEMBER :: after[p], found, now)
  {
    forall p | About(found, p) ensures p in after && after[p].at == now {
    }
  }

  method Collect(conns: set<Conn>, now: nat) returns (found: seq<Dropped>)
    ensures Reports(found, conns, now)
  {
    found := [];
    var left := conns;
    ghost var moved: set<Conn> := {};
    while left != {}
      invariant left !! moved && left + moved == conns && Reports(found, moved, now)
    {
      var c :| c in left;
      found := found + [Dropped(c.port, c.from, now)];
      left, moved := left - {c}, moved + {c};
    }
  }

  class ConnectWatch {
    var pending: Pending
    var dropped: map<U16, Dropped>

    constructor ()
      ensures pending == map[] && dropped == map[]
    {
      pending, dropped := map[], map[];
    }

    /** Report the connections that have waited ANSWER_GRACE, and stop waiting for them. */
    method Sweep(now: nat) returns (found: seq<Dropped>)
      modifies this
      ensures pending == Waiting(old(pending), now)
      ensures Reports(found, Overdue(old(pending), now), now)
      ensures Remembers(old(dropped), dropped, found, now)
    {
      found := Collect(Overdue(pending, now), now);
      pending := Waiting(pending, now);
      ghost var before := dropped;
      var i := 0;
      while i < |found|
        invariant i <= |found| && Inserted(before, dropped, found[..i])
        invariant pending == Waiting(old(pending), now)
      {
        OneMoreFound(before, dropped, found, i);
        dropped := dropped[found[i].port := found[i]];
        i := i + 1;
      }
      assert found[..i] == found;
      Retained(before, dropped, found, now);
      dropped := map p | p in dropped && Filter.Since(now, dropped[p].at) < REMEMBER :: dropped[p];
    }

    /** The pump handed `p` to this machine. */
    method SawDelivered(p: seq<Byte>, now: nat) returns (found: seq<Dropped>)
      modifies this
      ensures var watched := Watched(old(pending), p, now);
        && pending == Waiting(watched, now) && Reports(found, Overdue(watched, now), now)
        && Remembers(old(dropped), dropped, found, now)
    {
      var s := SegmentOf(p);
      if s.Some? && s.value.Opens() && |pending| < PENDING_CAP {
        if s.value.Inbound() !in pending {
          pending := pending[s.value.Inbound() := now];
        }
      }
      found := Sweep(now);
    }

    /** This machine sent `p` into the room. */
    method SawOutbound(p: seq<Byte>, now: nat) returns (found: seq<Dropped>)
      modifies this
      ensures var answered := Answered(old(pending), p);
        && pending == Waiting(answered, now) && Reports(found, Overdue(answered, now), now)
        && Remembers(if answered == old(pending) then old(dropped) else old(dropped) - {SegmentOf(p).value.sport},
                     dropped, found, now)
    {
      var s := SegmentOf(p);
      if s.Some? && s.value.Answers() {
        var key := s.value.Outbound();
        if key in pending {
          pending := pending - {key};
          dropped := dropped - {s.value.sport};
          assert key in old(pending) && key !in pending;
        } else {
          assert pending - {key} == pending;
        }
      }
      found := Sweep(now);
    }

    /** Start over once the ports are open: nothing waits, and no warning stands. */
    method Forget()
      modifies this
      ensures pending == map[] && dropped == map[]
    {
      pending, dropped := map[], map[];
    }

    /** What is remembered now, by port. */
    method Listed(now: nat) returns (r: map<U16, Dropped>)
      modifies this
      ensures pending == Waiting(old(pending), now) && r == dropped
      ensures exists found :: Reports(found, Overdue(old(pending), now), now) && Remembers(old(dropped), r, found, now)
    {
      var found := Sweep(now);
      r := dropped;
    }
  }

  // ---------------------------------------------------------------- runs

  datatype Event =
    | Came(p: seq<Byte>, now: nat)
    | Went(p: seq<Byte>, now: nat)
    | Asked(now: nat)
    | Forgot(now: nat)

  /** What is pending when a call sweeps. */
  function Before(pending: Pending, e: Event): Pending {
    match e
    case Came(p, now) => Watched(pending, p, now)
    case Went(p, _) => Answered(pending, p)
    case Asked(_) => pending
    case Forgot(_) => map[]
  }

  function After(pending: Pending, e: Event): Pending { Waiting(Before(pending, e), e.now) }

  function Run(es: seq<Event>): Pending {
    if es == [] then map[] else After(Run(es[..|es| - 1]), es[|es| - 1])
  }

  /** Whether the `k`-th call reports `c`. */
  predicate Reported(es: seq<Event>, k: nat, c: Conn)
    requires k < |es|
  {
    c in Overdue(Before(Run(es[..k]), es[k]), es[k].now)
  }

  predicate InOrder(es: seq<Event>) { forall i, j :: 0 <= i <= j < |es| ==> es[i].now <= es[j].now }

  /** A delivered first segment of `c`. */
  predicate IsSyn(e: Event, c: Conn) {
    e.Came? && SegmentOf(e.p).Some? && SegmentOf(e.p).value.Opens() && SegmentOf(e.p).value.Inbound() == c
  }

  predicate IsAnswer(e: Event, c: Conn) {
    e.Went? && SegmentOf(e.p).Some? && SegmentOf(e.p).value.Answers() && SegmentOf(e.p).value.Outbound() == c
  }

  /** Answered, or forgotten. */
  predicate Clears(e: Event, c: Conn) { IsAnswer(e, c) || e.Forgot? }

  /** The `j`-th event starts the watch on `c`. */
  predicate Starts(es: seq<Event>, j: nat, c: Conn)
    requires j < |es|
  {
    IsSyn(es[j], c) && c !in Run(es[..j]) && |Run(es[..j])| < PENDING_CAP
  }

  /** Watched since the `j`-th event: neither answered, forgotten nor reported, though perhaps sent again. */
  predicate WatchedSince(es: seq<Event>, j: nat, c: Conn)
    requires j < |es|
  {
    Starts(es, j, c) && forall i :: j < i < |es| ==> !Clears(es[i], c) && !Reported(es, i, c)
  }

  lemma WatchGrows(es: seq<Event>, j: nat, c: Conn)
    requires j < |es| - 1 && WatchedSince(es[..|es| - 1], j, c)
    requires !Clears(es[|es| - 1], c) && !Reported(es, |es| - 1, c)
    ensures WatchedSince(es, j, c)
  {
    hide SegmentOf, Waiting, Overdue, Before;
    var init := es[..|es| - 1];
    assert init[..j] == es[..j];
    forall i | j < i < |es| ensures !Clears(es[i], c) && !Reported(es, i, c) {
      if i < |init| {
        assert init[..i] == es[..i] && init[i] == es[i];
        assert !Clears(init[i], c) && !Reported(init, i, c);
      }
    }
  }

  /** Everything pending has been watched since its first segment, whose time it keeps. */
  lemma {:induction false} PendingIsWatched(es: seq<Event>, c: Conn) returns (j: nat)
    requires InOrder(es) && c in Run(es)
    ensures j < |es| && WatchedSince(es, j, c) && Run(es)[c] == es[j].now
  {
    var init, e := es[..|es| - 1], es[|es| - 1];
    var before := Run(init);
    if c in before {
      assert c in Before(before, e) && Before(before, e)[c] == before[c];
      j := PendingIsWatched(init, c);
      assert !Clears(e, c);
      WatchGrows(es, j, c);
    } else {
      assert IsSyn(e, c);
      j := |es| - 1;
      assert Starts(es, j, c);
    }
  }

  /** Soundness: a reported connection's first segment is at least ANSWER_GRACE old and was not answered since. */
  lemma {:induction false} ReportedIsUnanswered(es: seq<Event>, k: nat, c: Conn) returns (j: nat)
    requires InOrder(es) && k < |es| && Reported(es, k, c)
    ensures j < k && Starts(es, j, c) && es[j].now + ANSWER_GRACE <= es[k].now
    ensures forall i :: j < i <= k ==> !Clears(es[i], c)
    ensures forall i :: j < i < k ==> !Reported(es, i, c)
  {
    hide SegmentOf, Waiting, Overdue, Before, Run, Clears, Starts, Reported, WatchedSince;
    WasPending(es, k, c);
    j := PendingIsWatched(es[..k], c);
    WatchedInPrefix(es, k, j, c);
  }

  lemma WasPending(es: seq<Event>, k: nat, c: Conn)
    requires InOrder(es) && k < |es| && Reported(es, k, c)
    ensures c in Run(es[..k]) && Run(es[..k])[c] + ANSWER_GRACE <= es[k].now && !Clears(es[k], c)
  {
  }

  lemma WatchedInPrefix(es: seq<Event>, k: nat, j: nat, c: Conn)
    requires j < k <= |es| && WatchedSince(es[..k], j, c)
    ensures Starts(es, j, c) && es[..k][j] == es[j]
    ensures forall i :: j < i < k ==> !Clears(es[i], c) && !Reported(es, i, c)
  {
    var before := es[..k];
    assert before[..j] == es[..j];
    forall i | j < i < k ensures !Clears(es[i], c) && !Reported(es, i, c) {
      assert before[..i] == es[..i];
      assert !Clears(before[i], c) && !Reported(before, i, c);
    }
  }

  /** Until it is overdue, answered or forgotten, a watched connection waits with its first time. */
  lemma {:induction false} StillPending(es: seq<Event>, j: nat, c: Conn)
    requires InOrder(es) && j < |es| && Starts(es, j, c)
    requires forall i :: j < i < |es| ==> !Clears(es[i], c) && es[i].now < es[j].now + ANSWER_GRACE
    ensures c in Run(es) && Run(es)[c] == es[j].now
  {
    var init, e := es[..|es| - 1], es[|es| - 1];
    if j < |es| - 1 {
      assert init[..j] == es[..j];
      forall i | j < i < |init| ensures !Clears(init[i], c) && init[i].now < init[j].now + ANSWER_GRACE {
        assert init[i] == es[i];
      }
      StillPending(init, j, c);
      assert !Clears(e, c);
      assert c in Before(Run(init), e) && Before(Run(init), e)[c] == es[j].now;
    }
  }

  /**
   Completeness: a watched connection neither answered nor forgotten is reported by the first
   call at or after its grace, however often its first segment was sent again.
   */
  lemma {:induction false} UnansweredIsReported(es: seq<Event>, j: nat, k: nat, c: Conn)
    requires InOrder(es) && j < k < |es| && Starts(es, j, c)
    requires forall i :: j < i <= k ==> !Clears(es[i], c)
    requires forall i :: j < i < k ==> es[i].now < es[j].now + ANSWER_GRACE
    ensures Reported(es, k, c) <==> es[j].now + ANSWER_GRACE <= es[k].now
  {
    var before := es[..k];
    assert before[..j] == es[..j];
    forall i | j < i < |before| ensures !Clears(before[i], c) && before[i].now < before[j].now + ANSWER_GRACE {
      assert before[i] == es[i];
    }
    StillPending(before, j, c);
    assert !Clears(es[k], c);
    assert c in Before(Run(before), es[k]) && Before(Run(before), es[k])[c] == es[j].now;
  }

  /** A connection is not watched at all only when PENDING_CAP others already are. */
  lemma UnwatchedWhen(es: seq<Event>, j: nat, c: Conn)
    requires j < |es| && IsSyn(es[j], c) && c !in Run(es[..j])
    ensures Starts(es, j, c) <==> c in Run(es[..j + 1])
    ensures !Starts(es, j, c) <==> |Run(es[..j])| >= PENDING_CAP
  {
    assert es[..j + 1][..j] == es[..j];
  }

  // ---------------------------------------------------------------- the segments, by their bits

  /** A TCP segment with its flags, not a later fragment. */
  predicate HasFlags(p: seq<Byte>) {
    && Endpoints(p).Some? && p[9] == 6 && Word(p, 6) % 0x2000 == 0 && |p| >= p[0] as int % 16 * 4 + 14
  }

  function FlagsAt(p: seq<Byte>): Byte
    requires HasFlags(p)
  {
    p[p[0] as int % 16 * 4 + 13]
  }

  /** A watch starts with SYN and no ACK, on the sender, its port and this machine's, while under 512 are watched. */
  lemma StartsWhen(pending: Pending, p: seq<Byte>, now: nat, c: Conn)
    requires c !in pending
    ensures c in Watched(pending, p, now) <==>
              && HasFlags(p) && |pending| < 512 && FlagsAt(p) as int / 2 % 2 == 1 && FlagsAt(p) as int / 16 % 2 == 0
              && var at := p[0] as int % 16 * 4; c == Conn(AddrAt(p, 12), Word(p, at), Word(p, at + 2))
    ensures c in Watched(pending, p, now) ==> Watched(pending, p, now)[c] == now
  {
  }

  /** It ends with a reset, or with SYN and ACK, sent back on the same ports; and with nothing else. */
  lemma EndsWhen(pending: Pending, p: seq<Byte>, c: Conn)
    requires c in pending
    ensures c !in Answered(pending, p) <==>
              && HasFlags(p)
              && (FlagsAt(p) as int / 4 % 2 == 1 || (FlagsAt(p) as int / 2 % 2 == 1 && FlagsAt(p) as int / 16 % 2 == 1))
              && var at := p[0] as int % 16 * 4; c == Conn(AddrAt(p, 16), Word(p, at + 2), Word(p, at))
    ensures c in Answered(pending, p) ==> Answered(pending, p)[c] == pending[c]
  {
  }

  /** So a bare reset ends it, and a refusal's RST-ACK, and a SYN-ACK; a bare ACK or another SYN does not. */
  lemma Answering(pending: Pending, p: seq<Byte>)
    requires HasFlags(p)
    requires var at := p[0] as int % 16 * 4; Conn(AddrAt(p, 16), Word(p, at + 2), Word(p, at)) in pending
    ensures var at := p[0] as int % 16 * 4;
      var c := Conn(AddrAt(p, 16), Word(p, at + 2), Word(p, at));
      && (FlagsAt(p) in {0x04, 0x14, 0x12} ==> c !in Answered(pending, p))
      && (FlagsAt(p) in {0x02, 0x10, 0x18, 0x11} ==> c in Answered(pending, p))
  {
    var at := p[0] as int % 16 * 4;
    EndsWhen(pending, p, Conn(AddrAt(p, 16), Word(p, at + 2), Word(p, at)));
  }

  // ---------------------------------------------------------------- the times

  /** A connection is overdue after three seconds, and waited for until then. */
  lemma GraceIs(pending: Pending, now: nat, c: Conn)
    requires c in pending
    ensures c in Overdue(pending, now) <==> pending[c] + 3_000 <= now
    ensures c in Waiting(pending, now) <==> now < pending[c] + 3_000
  {
  }

  /** A warning is kept for ten minutes, unless a newer one about its port takes its place. */
  lemma WarningKept(before: map<U16, Dropped>, after: map<U16, Dropped>, found: seq<Dropped>, now: nat, port: U16)
    requires Remembers(before, after, found, now) && port in before && !About(found, port)
    ensures port in after <==> now < before[port].at + 600_000
    ensures port in after ==> after[port] == before[port]
  {
  }
}
