/**
 Storm control (`lan.rs`): the host's per-member token buckets for broadcasts and for chat.

 The tokens are exact rationals here.  A gate counts nanoseconds, as `Instant` does.
 */
module Gates {
  import opened Wire
  import opened Filter

  const SECOND: nat := 1_000_000_000

  /** Tokens per second, the most a bucket holds, and how long an identical packet counts as a repeat. */
  datatype Limit = Limit(rate: real, burst: real, window: nat) {
    predicate Valid() { rate >= 0.0 && burst >= 1.0 }

    function Gained(elapsed: nat): (r: real)
      requires Valid()
      ensures r >= 0.0
    {
      elapsed as real / SECOND as real * rate
    }
  }

  const BROADCASTS := Limit(20.0, 40.0, 250_000_000)
  const CHAT := Limit(0.5, 5.0, 0)

  function Min(x: real, y: real): real { if x <= y then x else y }

  datatype GateState = GateState(tokens: real, refilledAt: nat, lastPacket: seq<Byte>, lastSentAt: Option<nat>) {
    function Level(limit: Limit, now: nat): real
      requires limit.Valid()
    {
      Min(tokens + limit.Gained(Since(now, refilledAt)), limit.burst)
    }

    predicate Repeats(limit: Limit, packet: seq<Byte>, now: nat) {
      lastPacket == packet && lastSentAt.Some? && Since(now, lastSentAt.value) < limit.window
    }
  }

  // ---------------------------------------------------------------- what a gate computes

  datatype Gate = Gate(limit: Limit, members: map<Identity, GateState>) {
    function Of(member: Identity, now: nat): GateState {
      if member in members then members[member] else GateState(limit.burst, now, [], None)
    }

    function Allow(sender: Identity, packet: seq<Byte>, now: nat): (Gate, bool)
      requires limit.Valid()
    {
      var s := Of(sender, now);
      var level := s.Level(limit, now);
      if s.Repeats(limit, packet, now) || level < 1.0 then
        (this.(members := members[sender := s.(tokens := level, refilledAt := now)]), false)
      else
        var sent := if limit.window > 0 then GateState(level - 1.0, now, packet, Some(now))
                    else s.(tokens := level - 1.0, refilledAt := now);
        (this.(members := members[sender := sent]), true)
    }

    function Forget(member: Identity): Gate { this.(members := members - {member}) }
  }

  /** A gate starts keeping state on whoever asks, and on nobody else. */
  lemma AllowKeeps(g: Gate, sender: Identity, packet: seq<Byte>, now: nat)
    requires g.limit.Valid()
    ensures var after := g.Allow(sender, packet, now).0;
      after.limit == g.limit && after.members.Keys == g.members.Keys + {sender}
  {
  }

  // ---------------------------------------------------------------- the classes

  class BroadcastGate {
    var perMember: map<Identity, GateState>

    function Model(): Gate
      reads this
    {
      Gate(BROADCASTS, perMember)
    }

    constructor ()
      ensures Model() == Gate(BROADCASTS, map[])
    {
      perMember := map[];
    }

    /** The verdict on one broadcast; a token is spent and the packet remembered only if it passes. */
    method Allow(sender: Identity, packet: seq<Byte>, now: nat) returns (allowed: bool)
      modifies this
      ensures (Model(), allowed) == old(Model()).Allow(sender, packet, now)
    {
      if sender !in perMember {
        perMember := perMember[sender := GateState(BROADCASTS.burst, now, [], None)];
      }
      var state := perMember[sender];
      var elapsed := Since(now, state.refilledAt);
      state := state.(tokens := Min(state.tokens + BROADCASTS.Gained(elapsed), BROADCASTS.burst));
      state := state.(refilledAt := now);
      var repeated := state.lastPacket == packet && state.lastSentAt.Some?
                      && Since(now, state.lastSentAt.value) < BROADCASTS.window;
      allowed := !repeated && state.tokens >= 1.0;
      if allowed {
        state := state.(tokens := state.tokens - 1.0, lastPacket := packet, lastSentAt := Some(now));
      }
      perMember := perMember[sender := state];
      assert perMember == old(perMember)[sender := state];
    }

    method Forget(member: Identity)
      modifies this
      ensures Model() == old(Model()).Forget(member)
    {
      perMember := perMember - {member};
    }
  }

  class ChatGate {
    var perMember: map<Identity, (real, nat)>

    function Model(): Gate
      reads this
    {
      Gate(CHAT, map m | m in perMember :: GateState(perMember[m].0, perMember[m].1, [], None))
    }

    constructor ()
      ensures Model() == Gate(CHAT, map[])
    {
      perMember := map[];
    }

    method Allow(sender: Identity, now: nat) returns (allowed: bool)
      modifies this
      ensures (Model(), allowed) == old(Model()).Allow(sender, [], now)
    {
      var (tokens, at) := if sender in perMember then perMember[sender] else (CHAT.burst, now);
      tokens := Min(tokens + CHAT.Gained(Since(now, at)), CHAT.burst);
      allowed := tokens >= 1.0;
      if allowed {
        tokens := tokens - 1.0;
      }
      perMember := perMember[sender := (tokens, now)];
      assert Model().members == old(Model()).members[sender := GateState(tokens, now, [], None)];
    }

    method Forget(member: Identity)
      modifies this
      ensures Model() == old(Model()).Forget(member)
    {
      perMember := perMember - {member};
      assert Model().members == old(Model()).members - {member};
    }
  }

  // ---------------------------------------------------------------- runs

  datatype Op = Ask(sender: Identity, packet: seq<Byte>, now: nat) | Leave(member: Identity, now: nat)

  function Step(g: Gate, op: Op): (Gate, bool)
    requires g.limit.Valid()
  {
    match op
    case Ask(sender, packet, now) => g.Allow(sender, packet, now)
    case Leave(member, _) => (g.Forget(member), false)
  }

  function Run(g: Gate, ops: seq<Op>): (r: Gate)
    requires g.limit.Valid()
    ensures r.limit == g.limit
  {
    if ops == [] then g else Step(Run(g, ops[..|ops| - 1]), ops[|ops| - 1]).0
  }

  predicate InOrder(ops: seq<Op>) { forall i, j :: 0 <= i <= j < |ops| ==> ops[i].now <= ops[j].now }

  /** Whether the `k`-th call is one of `member`'s, and was allowed. */
  predicate Allowed(g: Gate, ops: seq<Op>, member: Identity, k: nat)
    requires g.limit.Valid() && k < |ops|
  {
    ops[k].Ask? && ops[k].sender == member && Step(Run(g, ops[..k]), ops[k]).1
  }

  /** How many of `member`'s calls from the `i`-th on were allowed. */
  function Count(g: Gate, ops: seq<Op>, member: Identity, i: nat): nat
    requires g.limit.Valid() && i <= |ops|
  {
    if i == |ops| then 0
    else Count(g, ops[..|ops| - 1], member, i) + if Allowed(g, ops, member, |ops| - 1) then 1 else 0
  }

  // ---------------------------------------------------------------- the bound

  /** The tokens a member has, or would be given, at `now`. */
  function LevelOf(g: Gate, member: Identity, now: nat): real
    requires g.limit.Valid()
  {
    g.Of(member, now).Level(g.limit, now)
  }

  lemma GainedSplit(limit: Limit, a: nat, b: nat)
    requires limit.Valid()
    ensures limit.Gained(a + b) == limit.Gained(a) + limit.Gained(b)
  {
  }

  /** A call uses a token exactly when it is allowed; time gives back at most the rate. */
  lemma LevelStep(g: Gate, op: Op, member: Identity, t: nat)
    requires g.limit.Valid() && t <= op.now && op != Leave(member, op.now)
    requires member in g.members ==> g.members[member].refilledAt <= t
    ensures var (after, allowed) := Step(g, op);
      LevelOf(after, member, op.now) + (if op.Ask? && op.sender == member && allowed then 1.0 else 0.0)
        <= LevelOf(g, member, t) + g.limit.Gained(op.now - t)
  {
    if member in g.members {
      GainedSplit(g.limit, t - g.members[member].refilledAt, op.now - t);
    }
  }

  /** From an empty gate, tokens are never negative and no state is from the future. */
  predicate Sane(g: Gate, now: nat) {
    forall m :: m in g.members ==> 0.0 <= g.members[m].tokens && g.members[m].refilledAt <= now
  }

  lemma {:induction false} RunSane(limit: Limit, ops: seq<Op>, now: nat)
    requires limit.Valid() && InOrder(ops) && (ops != [] ==> ops[|ops| - 1].now <= now)
    ensures Sane(Run(Gate(limit, map[]), ops), now)
  {
    if ops != [] {
      RunSane(limit, ops[..|ops| - 1], ops[|ops| - 1].now);
    }
  }

  /** Spent plus left never exceeds given. */
  lemma {:induction false} Spent(limit: Limit, ops: seq<Op>, member: Identity, i: nat)
    requires limit.Valid() && InOrder(ops) && i < |ops|
    requires forall k :: i <= k < |ops| ==> ops[k] != Leave(member, ops[k].now)
    ensures var g, last := Gate(limit, map[]), ops[|ops| - 1].now;
      Count(g, ops, member, i) as real + LevelOf(Run(g, ops), member, last)
        <= limit.burst + limit.Gained(last - ops[i].now)
  {
    var g, init, op := Gate(limit, map[]), ops[..|ops| - 1], ops[|ops| - 1];
    var before := Run(g, init);
    if i == |ops| - 1 {
      RunSane(limit, init, op.now);
      LevelStep(before, op, member, op.now);
    } else {
      Spent(limit, init, member, i);
      var t := init[|init| - 1].now;
      RunSane(limit, init, t);
      LevelStep(before, op, member, t);
      GainedSplit(limit, t - ops[i].now, op.now - t);
    }
  }

  lemma LevelPositive(g: Gate, member: Identity, now: nat)
    requires g.limit.Valid() && Sane(g, now)
    ensures LevelOf(g, member, now) >= 0.0
  {
  }

  /**
   The bound: whatever the calls, any window of them in which `member` is not forgotten lets it
   send at most a burst plus the rate over the window's length.
   */
  lemma {:induction false} WindowBound(limit: Limit, ops: seq<Op>, member: Identity, i: nat, j: nat)
    requires limit.Valid() && InOrder(ops) && i < j <= |ops|
    requires forall k :: i <= k < j ==> ops[k] != Leave(member, ops[k].now)
    ensures Count(Gate(limit, map[]), ops[..j], member, i) as real
         <= limit.burst + limit.Gained(ops[j - 1].now - ops[i].now)
  {
    Spent(limit, ops[..j], member, i);
    RunSane(limit, ops[..j], ops[j - 1].now);
    LevelPositive(Run(Gate(limit, map[]), ops[..j]), member, ops[j - 1].now);
  }

  /** Broadcasts: at most 40 plus 20 a second. */
  lemma {:induction false} BroadcastBound(ops: seq<Op>, member: Identity, i: nat, j: nat, seconds: nat)
    requires InOrder(ops) && i < j <= |ops| && ops[j - 1].now <= ops[i].now + seconds * SECOND
    requires forall k :: i <= k < j ==> ops[k] != Leave(member, ops[k].now)
    ensures Count(Gate(BROADCASTS, map[]), ops[..j], member, i) <= 40 + 20 * seconds
  {
    WindowBound(BROADCASTS, ops, member, i, j);
  }

  /** Chat: at most 5 plus one every two seconds. */
  lemma {:induction false} ChatBound(ops: seq<Op>, member: Identity, i: nat, j: nat, seconds: nat)
    requires InOrder(ops) && i < j <= |ops| && ops[j - 1].now <= ops[i].now + seconds * SECOND
    requires forall k :: i <= k < j ==> ops[k] != Leave(member, ops[k].now)
    ensures 2 * Count(Gate(CHAT, map[]), ops[..j], member, i) <= 10 + seconds
  {
    WindowBound(CHAT, ops, member, i, j);
  }

  // ---------------------------------------------------------------- repeats

  /** Until a member is let through again or forgotten, its state holds what it was last let through with. */
  lemma {:induction false} LastLetThrough(g: Gate, ops: seq<Op>, member: Identity, k: nat)
    requires g.limit.Valid() && g.limit.window > 0 && k < |ops| && Allowed(g, ops, member, k)
    requires forall i :: k < i < |ops| ==> !Allowed(g, ops, member, i) && ops[i] != Leave(member, ops[i].now)
    ensures var after := Run(g, ops);
      && member in after.members
      && after.members[member].lastPacket == ops[k].packet && after.members[member].lastSentAt == Some(ops[k].now)
  {
    var init := ops[..|ops| - 1];
    if k == |ops| - 1 {
      assert ops[..k] == init;
    } else {
      assert init[..k] == ops[..k];
      forall i | k < i < |init| ensures !Allowed(g, init, member, i) {
        assert init[..i] == ops[..i];
        assert !Allowed(g, ops, member, i);
      }
      LastLetThrough(g, init, member, k);
      assert !Allowed(g, ops, member, |ops| - 1);
    }
  }

  /** Two identical broadcasts let through in a row are at least 250 ms apart. */
  lemma RepeatsApart(ops: seq<Op>, member: Identity, k: nat, n: nat)
    requires InOrder(ops) && k < n < |ops|
    requires var g := Gate(BROADCASTS, map[]); Allowed(g, ops, member, k) && Allowed(g, ops, member, n)
    requires forall i :: k < i < n ==> !Allowed(Gate(BROADCASTS, map[]), ops, member, i)
    requires forall i :: k < i < n ==> ops[i] != Leave(member, ops[i].now)
    requires ops[n].packet == ops[k].packet
    ensures ops[n].now - ops[k].now >= BROADCASTS.window
  {
    var g, before := Gate(BROADCASTS, map[]), ops[..n];
    assert before[..k] == ops[..k];
    forall i | k < i < |before| ensures !Allowed(g, before, member, i) {
      assert before[..i] == ops[..i];
      assert !Allowed(g, ops, member, i);
    }
    LastLetThrough(g, before, member, k);
  }

  // ---------------------------------------------------------------- what a member is owed

  /** What a call finds: what was left, and what time gave, unless the bucket overflowed. */
  lemma LevelGrows(g: Gate, op: Op, member: Identity, t: nat)
    requires g.limit.Valid() && t <= op.now
    requires member in g.members ==> g.members[member].refilledAt <= t
    ensures var (after, allowed) := Step(g, op);
      LevelOf(after, member, op.now) + (if op.Ask? && op.sender == member && allowed then 1.0 else 0.0)
        >= Min(g.limit.burst, LevelOf(g, member, t) + g.limit.Gained(op.now - t))
  {
    if member in g.members {
      GainedSplit(g.limit, t - g.members[member].refilledAt, op.now - t);
    }
  }

  /** Spent plus left is never less than what time gave, or a full bucket. */
  lemma {:induction false} Owed(limit: Limit, ops: seq<Op>, member: Identity, i: nat)
    requires limit.Valid() && InOrder(ops) && i < |ops|
    ensures var g, last := Gate(limit, map[]), ops[|ops| - 1].now;
      Count(g, ops, member, i) as real + LevelOf(Run(g, ops), member, last)
        >= Min(limit.burst, limit.Gained(last - ops[i].now))
  {
    hide Limit.Gained, LevelOf;
    var g, init, op := Gate(limit, map[]), ops[..|ops| - 1], ops[|ops| - 1];
    var before := Run(g, init);
    if i == |ops| - 1 {
      RunSane(limit, init, op.now);
      LevelGrows(before, op, member, op.now);
      LevelPositive(before, member, op.now);
      GainedNothing(limit);
    } else {
      Owed(limit, init, member, i);
      var t := init[|init| - 1].now;
      RunSane(limit, init, t);
      LevelGrows(before, op, member, t);
      GainedSplit(limit, t - ops[i].now, op.now - t);
    }
  }

  lemma GainedNothing(limit: Limit)
    requires limit.Valid()
    ensures limit.Gained(0) == 0.0
  {
  }

  /** No call of `member`'s let through less than 250 ms before `now` was this packet. */
  predicate NoRepeat(ops: seq<Op>, member: Identity, packet: seq<Byte>, now: nat) {
    forall k :: 0 <= k < |ops| && Allowed(Gate(BROADCASTS, map[]), ops, member, k) && now < ops[k].now + 250_000_000 ==>
                  ops[k].packet != packet
  }

  /** A call that is not let through is not remembered. */
  lemma {:induction false} NothingRemembered(g: Gate, ops: seq<Op>, member: Identity)
    requires g.limit.Valid() && g.limit.window > 0 && ops != [] && !Allowed(g, ops, member, |ops| - 1)
    requires var s := Run(g, ops); member in s.members && s.members[member].lastSentAt.Some?
    ensures var before, after := Run(g, ops[..|ops| - 1]), Run(g, ops);
      && member in before.members && before.members[member].lastPacket == after.members[member].lastPacket
      && before.members[member].lastSentAt == after.members[member].lastSentAt
  {
    hide Limit.Gained, GateState.Level;
  }

  /** What a state remembers was let through. */
  lemma {:induction false} RememberedWasAllowed(g: Gate, ops: seq<Op>, member: Identity)
    requires g.limit.Valid() && g.limit.window > 0 && g.members == map[]
    requires var s := Run(g, ops); member in s.members && s.members[member].lastSentAt.Some?
    ensures var last := Run(g, ops).members[member];
      exists k :: 0 <= k < |ops| && Allowed(g, ops, member, k)
                  && ops[k].packet == last.lastPacket && ops[k].now == last.lastSentAt.value
  {
    hide Limit.Gained, GateState.Level;
    var n := |ops| - 1;
    var init := ops[..n];
    if !Allowed(g, ops, member, n) {
      NothingRemembered(g, ops, member);
      RememberedWasAllowed(g, init, member);
      var last := Run(g, init).members[member];
      var k :| 0 <= k < |init| && Allowed(g, init, member, k)
               && init[k].packet == last.lastPacket && init[k].now == last.lastSentAt.value;
      assert init[..k] == ops[..k];
      assert Allowed(g, ops, member, k);
    }
  }

  lemma {:induction false} NotRepeated(ops: seq<Op>, member: Identity, packet: seq<Byte>, now: nat)
    requires NoRepeat(ops, member, packet, now)
    ensures var s := Run(Gate(BROADCASTS, map[]), ops);
      member in s.members ==> !s.members[member].Repeats(BROADCASTS, packet, now)
  {
    hide Limit.Gained, Allowed, Run;
    var g := Gate(BROADCASTS, map[]);
    var s := Run(g, ops);
    if member in s.members && s.members[member].Repeats(BROADCASTS, packet, now) {
      RememberedWasAllowed(g, ops, member);
    }
  }

  /** The calls of `member`'s are all `apart` or more before `now`. */
  predicate Rested(ops: seq<Op>, member: Identity, apart: nat, now: nat) {
    forall k :: 0 <= k < |ops| && ops[k].Ask? && ops[k].sender == member ==> ops[k].now + apart <= now
  }

  lemma {:induction false} RefilledWhen(limit: Limit, ops: seq<Op>, member: Identity, apart: nat, now: nat)
    requires limit.Valid() && Rested(ops, member, apart, now)
    ensures var s := Run(Gate(limit, map[]), ops); member in s.members ==> s.members[member].refilledAt + apart <= now
  {
    hide Limit.Gained;
    if ops != [] {
      assert Rested(ops[..|ops| - 1], member, apart, now);
      RefilledWhen(limit, ops[..|ops| - 1], member, apart, now);
    }
  }

  /** A member is let through if it repeats nothing and its last call is 50 ms ago. */
  lemma {:induction false} BroadcastLetThrough(ops: seq<Op>, member: Identity, packet: seq<Byte>, now: nat)
    requires InOrder(ops) && Rested(ops, member, 50_000_000, now) && NoRepeat(ops, member, packet, now)
    requires ops != [] ==> ops[|ops| - 1].now <= now
    ensures Run(Gate(BROADCASTS, map[]), ops).Allow(member, packet, now).1
  {
    RunSane(BROADCASTS, ops, now);
    RefilledWhen(BROADCASTS, ops, member, 50_000_000, now);
    NotRepeated(ops, member, packet, now);
    var s := Run(Gate(BROADCASTS, map[]), ops);
    if member in s.members {
      TokenAfter(BROADCASTS, Since(now, s.members[member].refilledAt), 50_000_000);
    }
  }

  /** A chat line is let through if the member's last is two seconds ago. */
  lemma {:induction false} ChatLetThrough(ops: seq<Op>, member: Identity, now: nat)
    requires InOrder(ops) && Rested(ops, member, 2 * SECOND, now)
    requires ops != [] ==> ops[|ops| - 1].now <= now
    ensures Run(Gate(CHAT, map[]), ops).Allow(member, [], now).1
  {
    RunSane(CHAT, ops, now);
    RefilledWhen(CHAT, ops, member, 2 * SECOND, now);
    var s := Run(Gate(CHAT, map[]), ops);
    if member in s.members {
      TokenAfter(CHAT, Since(now, s.members[member].refilledAt), 2 * SECOND);
    }
  }

  lemma TokenAfter(limit: Limit, elapsed: nat, enough: nat)
    requires limit.Valid() && elapsed >= enough && limit.Gained(enough) >= 1.0
    ensures limit.Gained(elapsed) >= 1.0
  {
    GainedSplit(limit, enough, elapsed - enough);
  }

  /** The `j`-th call is a broadcast of `member`'s that repeats nothing and is refused all the same. */
  predicate Starved(ops: seq<Op>, member: Identity, j: nat)
    requires j < |ops|
  {
    && ops[j].Ask? && ops[j].sender == member && !Allowed(Gate(BROADCASTS, map[]), ops, member, j)
    && NoRepeat(ops[..j], member, ops[j].packet, ops[j].now)
  }

  /** Then its bucket is short of one token. */
  lemma StarvedLevel(ops: seq<Op>, member: Identity, j: nat)
    requires j < |ops| && InOrder(ops) && Starved(ops, member, j)
    ensures LevelOf(Run(Gate(BROADCASTS, map[]), ops[..j + 1]), member, ops[j].now) < 1.0
    ensures LevelOf(Run(Gate(BROADCASTS, map[]), ops[..j]), member, ops[j].now) < 1.0
  {
    hide Limit.Gained;
    NotRepeated(ops[..j], member, ops[j].packet, ops[j].now);
    GainedNothing(BROADCASTS);
    assert ops[..j + 1][..j] == ops[..j];
  }

  /**
   Whoever is refused had its due: before a broadcast that repeats nothing is refused, 20 a second
   were let through in any window of up to two seconds, and 40 in any longer one.
   */
  lemma {:induction false} BroadcastOwed(ops: seq<Op>, member: Identity, i: nat, j: nat, seconds: nat)
    requires InOrder(ops) && i <= j < |ops| && ops[i].now + seconds * SECOND <= ops[j].now && Starved(ops, member, j)
    ensures Count(Gate(BROADCASTS, map[]), ops[..j + 1], member, i) >= if seconds <= 2 then 20 * seconds else 40
  {
    hide Allowed, NoRepeat, LevelOf, Limit.Gained, Run, Count;
    Owed(BROADCASTS, ops[..j + 1], member, i);
    StarvedLevel(ops, member, j);
    AtLeast(BROADCASTS, ops[j].now - ops[i].now, seconds);
    var n := Count(Gate(BROADCASTS, map[]), ops[..j + 1], member, i);
    assert n as real > Min(40.0, 20.0 * seconds as real) - 1.0;
  }

  /** Refused again and again: after the `i`-th call, never more than 1.95 s since a broadcast was refused. */
  predicate Pressed(ops: seq<Op>, member: Identity, i: nat) {
    forall k :: i < k < |ops| ==>
      && ops[k] != Leave(member, ops[k].now)
      && exists r: nat :: i <= r < k && ops[k].now <= ops[r].now + 1_950_000_000 && Starved(ops[..k], member, r)
  }

  /** A bucket that is not full: what was left and what time gave is what is spent and left. */
  lemma LevelExact(g: Gate, op: Op, member: Identity, t: nat)
    requires g.limit.Valid() && t <= op.now && op != Leave(member, op.now)
    requires member in g.members ==> g.members[member].refilledAt <= t
    requires LevelOf(g, member, op.now) < g.limit.burst
    ensures var (after, allowed) := Step(g, op);
      LevelOf(after, member, op.now) + (if op.Ask? && op.sender == member && allowed then 1.0 else 0.0)
        == LevelOf(g, member, t) + g.limit.Gained(op.now - t)
  {
    GainedSplit(g.limit, t - g.members[member].refilledAt, op.now - t);
  }

  /** Time gives back at most the rate, call or no call. */
  lemma LevelBetween(g: Gate, member: Identity, t: nat, now: nat)
    requires g.limit.Valid() && t <= now && (member in g.members ==> g.members[member].refilledAt <= t)
    ensures LevelOf(g, member, now) <= LevelOf(g, member, t) + g.limit.Gained(now - t)
  {
    if member in g.members {
      GainedSplit(g.limit, t - g.members[member].refilledAt, now - t);
    }
  }

  lemma {:induction false} LevelRises(ops: seq<Op>, member: Identity, r: nat, now: nat)
    requires InOrder(ops) && r < |ops| && ops[|ops| - 1].now <= now
    requires forall k :: r < k < |ops| ==> ops[k] != Leave(member, ops[k].now)
    ensures var g := Gate(BROADCASTS, map[]);
      LevelOf(Run(g, ops), member, now)
        <= LevelOf(Run(g, ops[..r + 1]), member, ops[r].now) + BROADCASTS.Gained(now - ops[r].now)
  {
    hide Limit.Gained, LevelOf, Run, Step;
    var n := |ops| - 1;
    var g, t := Gate(BROADCASTS, map[]), ops[n].now;
    RunSane(BROADCASTS, ops, t);
    RunLast(g, ops);
    LevelBetween(Run(g, ops), member, t, now);
    if r == n {
      assert ops[..r + 1] == ops;
    } else {
      var init := ops[..n];
      RunSane(BROADCASTS, init, init[n - 1].now);
      LevelRises(init, member, r, init[n - 1].now);
      LevelStep(Run(g, init), ops[n], member, init[n - 1].now);
      GainedSplit(BROADCASTS, init[n - 1].now - ops[r].now, t - init[n - 1].now);
      GainedSplit(BROADCASTS, t - ops[r].now, now - t);
      assert init[..r + 1] == ops[..r + 1];
    }
  }

  lemma NotFull(ops: seq<Op>, member: Identity, i: nat, k: nat)
    requires InOrder(ops) && i < k < |ops| && Pressed(ops, member, i)
    ensures LevelOf(Run(Gate(BROADCASTS, map[]), ops[..k]), member, ops[k].now) < 40.0
  {
    hide LevelOf, Starved, Allowed;
    var r: nat :| i <= r < k && ops[k].now <= ops[r].now + 1_950_000_000 && Starved(ops[..k], member, r);
    StarvedLevel(ops[..k], member, r);
    LevelRises(ops[..k], member, r, ops[k].now);
    assert BROADCASTS.Gained(ops[k].now - ops[r].now) <= 39.0;
  }

  lemma {:induction false} SpentExactly(ops: seq<Op>, member: Identity, i: nat)
    requires InOrder(ops) && i < |ops| && Pressed(ops, member, i)
    ensures var g, last := Gate(BROADCASTS, map[]), ops[|ops| - 1].now;
      Count(g, ops, member, i + 1) as real + LevelOf(Run(g, ops), member, last)
        == LevelOf(Run(g, ops[..i + 1]), member, ops[i].now) + BROADCASTS.Gained(last - ops[i].now)
  {
    hide Limit.Gained, LevelOf, Allowed, Starved, Run, Step, Pressed;
    var n := |ops| - 1;
    var g, init := Gate(BROADCASTS, map[]), ops[..n];
    RunLast(g, ops);
    if i == n {
      assert ops[..i + 1] == ops;
      GainedNothing(BROADCASTS);
    } else {
      PressedBefore(ops, member, i);
      SpentExactly(init, member, i);
      var t := init[n - 1].now;
      RunSane(BROADCASTS, init, t);
      NotFull(ops, member, i, n);
      NobodyLeft(ops, member, i);
      LevelExact(Run(g, init), ops[n], member, t);
      GainedSplit(BROADCASTS, t - ops[i].now, ops[n].now - t);
      assert init[..i + 1] == ops[..i + 1];
      AllowedIs(g, ops, member);
    }
  }

  lemma NobodyLeft(ops: seq<Op>, member: Identity, i: nat)
    requires i < |ops| - 1 && Pressed(ops, member, i)
    ensures var op := ops[|ops| - 1]; op != Leave(member, op.now)
  {
  }

  lemma {:induction false} RunLast(g: Gate, ops: seq<Op>)
    requires g.limit.Valid() && ops != []
    ensures Run(g, ops) == Step(Run(g, ops[..|ops| - 1]), ops[|ops| - 1]).0
  {
  }

  lemma {:induction false} AllowedIs(g: Gate, ops: seq<Op>, member: Identity)
    requires g.limit.Valid() && ops != []
    ensures var n := |ops| - 1;
      Allowed(g, ops, member, n) <==>
        ops[n].Ask? && ops[n].sender == member && Step(Run(g, ops[..n]), ops[n]).1
  {
  }

  lemma PressedBefore(ops: seq<Op>, member: Identity, i: nat)
    requires i < |ops| - 1 && Pressed(ops, member, i)
    ensures Pressed(ops[..|ops| - 1], member, i)
  {
    hide Starved;
    var init := ops[..|ops| - 1];
    forall k | i < k < |init| ensures init[..k] == ops[..k] {}
  }

  /**
   The sustained rate: a member that is refused again and again, for as long as it may be, is let
   through 20 times a second, whatever the window.
   */
  lemma {:induction false} SustainedRate(ops: seq<Op>, member: Identity, i: nat, j: nat, seconds: nat)
    requires InOrder(ops) && i <= j < |ops| && ops[i].now + seconds * SECOND <= ops[j].now
    requires Pressed(ops[..j + 1], member, i) && Starved(ops, member, j)
    ensures Count(Gate(BROADCASTS, map[]), ops[..j + 1], member, i + 1) >= 20 * seconds
  {
    hide Allowed, Starved, Pressed, LevelOf, Limit.Gained, Run, Count;
    var run := ops[..j + 1];
    SpentExactly(run, member, i);
    StarvedLevel(ops, member, j);
    assert run[..i + 1] == ops[..i + 1] && run[|run| - 1] == ops[j] && run[i] == ops[i];
    RunSane(BROADCASTS, ops[..i + 1], ops[i].now);
    LevelPositive(Run(Gate(BROADCASTS, map[]), ops[..i + 1]), member, ops[i].now);
    AtLeast(BROADCASTS, ops[j].now - ops[i].now, seconds);
    var n := Count(Gate(BROADCASTS, map[]), run, member, i + 1);
    assert n as real > 20.0 * seconds as real - 1.0;
    assert n > 20 * seconds - 1;
  }

  lemma AtLeast(limit: Limit, elapsed: nat, seconds: nat)
    requires limit == BROADCASTS && elapsed >= seconds * SECOND
    ensures limit.Gained(elapsed) >= 20.0 * seconds as real
  {
    GainedSplit(limit, seconds * SECOND, elapsed - seconds * SECOND);
    assert limit.Gained(seconds * SECOND) == 20.0 * seconds as real;
  }

  /** And before a chat line is refused, one for every two seconds of any window of up to ten, five in a longer one. */
  lemma {:induction false} ChatOwed(ops: seq<Op>, member: Identity, i: nat, j: nat, seconds: nat)
    requires InOrder(ops) && i <= j < |ops| && ops[i].now + seconds * SECOND <= ops[j].now
    requires ops[j].Ask? && ops[j].sender == member && !Allowed(Gate(CHAT, map[]), ops, member, j)
    ensures Count(Gate(CHAT, map[]), ops[..j + 1], member, i) >= if seconds <= 10 then seconds / 2 else 5
  {
    hide Allowed, LevelOf, Limit.Gained, Run, Count;
    Owed(CHAT, ops[..j + 1], member, i);
    ChatStarvedLevel(ops, member, j);
    ChatAtLeast(ops[j].now - ops[i].now, seconds);
    var n := Count(Gate(CHAT, map[]), ops[..j + 1], member, i);
    assert n as real > Min(5.0, 0.5 * seconds as real) - 1.0;
    HalfTokens(n, seconds);
  }

  lemma ChatAtLeast(elapsed: nat, seconds: nat)
    requires elapsed >= seconds * SECOND
    ensures CHAT.Gained(elapsed) >= 0.5 * seconds as real
  {
    GainedSplit(CHAT, seconds * SECOND, elapsed - seconds * SECOND);
    assert CHAT.Gained(seconds * SECOND) == 0.5 * seconds as real;
  }

  lemma HalfTokens(n: nat, seconds: nat)
    requires n as real > Min(5.0, 0.5 * seconds as real) - 1.0
    ensures 2 * n >= if seconds <= 10 then seconds - 1 else 10
  {
    if seconds <= 10 {
      assert 2.0 * n as real > seconds as real - 2.0;
    }
  }

  lemma ChatStarvedLevel(ops: seq<Op>, member: Identity, j: nat)
    requires j < |ops| && ops[j].Ask? && ops[j].sender == member && !Allowed(Gate(CHAT, map[]), ops, member, j)
    ensures LevelOf(Run(Gate(CHAT, map[]), ops[..j + 1]), member, ops[j].now) < 1.0
  {
    hide Limit.Gained;
    var before := Run(Gate(CHAT, map[]), ops[..j]);
    assert ops[..j + 1][..j] == ops[..j];
    assert Run(Gate(CHAT, map[]), ops[..j + 1]) == Step(before, ops[j]).0;
    assert before.Of(member, ops[j].now).Level(CHAT, ops[j].now) < 1.0;
    GainedNothing(CHAT);
  }

  // ---------------------------------------------------------------- members on their own

  /** The calls of a run that are about `member`. */
  function Own(ops: seq<Op>, member: Identity): (r: seq<Op>)
    ensures |r| <= |ops|
  {
    if ops == [] then []
    else Own(ops[..|ops| - 1], member) + if About(ops[|ops| - 1], member) then [ops[|ops| - 1]] else []
  }

  predicate About(op: Op, member: Identity) { if op.Ask? then op.sender == member else op.member == member }

  predicate SameFor(g: Gate, h: Gate, member: Identity) {
    && (member in g.members <==> member in h.members)
    && (member in g.members ==> g.members[member] == h.members[member])
  }

  /** What a gate keeps on a member is what it would had nobody else ever called. */
  lemma {:induction false} OthersDoNotMatter(g: Gate, ops: seq<Op>, member: Identity)
    requires g.limit.Valid()
    ensures SameFor(Run(g, ops), Run(g, Own(ops, member)), member)
  {
    if ops != [] {
      var init, op := ops[..|ops| - 1], ops[|ops| - 1];
      OthersDoNotMatter(g, init, member);
      if About(op, member) {
        var own := Own(ops, member);
        assert own[..|own| - 1] == Own(init, member) && own[|own| - 1] == op;
      } else {
        assert Own(ops, member) == Own(init, member);
      }
    }
  }

  /** So whether it is let through does not depend on the others. */
  lemma {:induction false} DecidedAlone(g: Gate, ops: seq<Op>, member: Identity, packet: seq<Byte>, now: nat)
    requires g.limit.Valid()
    ensures Run(g, ops).Allow(member, packet, now).1 == Run(g, Own(ops, member)).Allow(member, packet, now).1
  {
    OthersDoNotMatter(g, ops, member);
  }
}
