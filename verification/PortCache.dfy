/**
 The filter's copy of what a player allows, under concurrency (`lan_filter.rs`).  Setters write a
 value and then count it; the pump reads the count and then the values; every one of those is a
 step of its own, and setters on other threads may come between any two.
 */
module PortCache {
  import opened Wire
  import opened Ipv4
  import opened Filter

  /** How far a sync has read. */
  datatype Reading =
    | Idle
    | SawGeneration(generation: nat)
    | SawPorts(generation: nat, ports: seq<LanPort>)
    | SawAll(generation: nat, ports: seq<LanPort>, anyHigh: bool)

  datatype World = World(
    ports: seq<LanPort>, anyHigh: bool, bumps: nat,  // shared; what is stored is `bumps` modulo 2^64
    midway: nat,                                     // setters that wrote and have yet to count it
    base: Policy, policy: Policy, filterHigh: bool, filterGeneration: nat,
    reading: Reading)
  {
    function Generation(): nat { bumps % GENERATIONS }
  }

  datatype Step = WritePorts(wanted: seq<LanPort>) | WriteHigh(on: bool) | Bump
                | ReadGeneration | ReadPorts | ReadHigh | Commit

  predicate May(w: World, step: Step) {
    match step
    case WritePorts(wanted) => Refusal(wanted).None?
    case WriteHigh(_) => true
    case Bump => w.midway > 0 && w.bumps + 1 < GENERATIONS
    case ReadGeneration => w.reading.Idle?
    case ReadPorts => w.reading.SawGeneration?
    case ReadHigh => w.reading.SawPorts?
    case Commit => w.reading.SawAll?
  }

  function Do(w: World, step: Step): World
    requires May(w, step)
  {
    match step
    case WritePorts(wanted) => w.(ports := Distinct(wanted), midway := w.midway + 1)
    case WriteHigh(on) => w.(anyHigh := on, midway := w.midway + 1)
    case Bump => w.(bumps := w.bumps + 1, midway := w.midway - 1)
    case ReadGeneration =>
      if w.Generation() == w.filterGeneration then w else w.(reading := SawGeneration(w.Generation()))
    case ReadPorts => w.(reading := SawPorts(w.reading.generation, w.ports))
    case ReadHigh => w.(reading := SawAll(w.reading.generation, w.reading.ports, w.anyHigh))
    case Commit =>
      w.(policy := Merged(w.base, w.reading.ports), filterHigh := w.reading.anyHigh,
         filterGeneration := w.reading.generation, reading := Idle)
  }

  function Start(base: Policy): World { World([], false, 0, 0, base, base, false, 0, Idle) }

  function Run(w: World, steps: seq<Step>): World
    requires Possible(w, steps)
    decreases |steps|
  {
    if steps == [] then w else Run(Do(w, steps[0]), steps[1..])
  }

  predicate Possible(w: World, steps: seq<Step>)
    decreases |steps|
  {
    steps != [] ==> May(w, steps[0]) && Possible(Do(w, steps[0]), steps[1..])
  }

  /** Values read since a generation was counted are the present ones, unless someone is midway or has counted. */
  predicate UpToDate(w: World, generation: nat, ports: seq<LanPort>, anyHigh: bool) {
    generation == w.bumps && w.midway == 0 ==> ports == w.ports && anyHigh == w.anyHigh
  }

  predicate Inv(w: World) {
    && w.bumps < GENERATIONS && w.filterGeneration <= w.bumps
    && (w.filterGeneration == w.bumps && w.midway == 0 ==>
          w.policy == Merged(w.base, w.ports) && w.filterHigh == w.anyHigh)
    && match w.reading
       case Idle => true
       case SawGeneration(g) => g <= w.bumps
       case SawPorts(g, ports) => g <= w.bumps && UpToDate(w, g, ports, w.anyHigh)
       case SawAll(g, ports, anyHigh) => g <= w.bumps && UpToDate(w, g, ports, anyHigh)
  }

  lemma {:induction false} RunInv(w: World, steps: seq<Step>)
    requires Inv(w) && Possible(w, steps)
    ensures Inv(Run(w, steps))
    decreases |steps|
  {
    if steps != [] {
      StepInv(w, steps[0]);
      RunInv(Do(w, steps[0]), steps[1..]);
    }
  }

  lemma StepInv(w: World, step: Step)
    requires Inv(w) && May(w, step)
    ensures Inv(Do(w, step))
  {
  }

  /** What a player allowed, and what the pack lists: exactly that, in whatever order. */
  lemma {:induction false} MergedLists(base: Policy, extra: seq<LanPort>, proto: LanProto, port: U16)
    ensures Merged(base, extra).any == base.any
    ensures Merged(base, extra).Lists(proto, port) <==> base.Lists(proto, port) || LanPort(proto, port) in extra
  {
    if extra != [] {
      MergedLists(base, extra[..|extra| - 1], proto, port);
      assert extra == extra[..|extra| - 1] + [extra[|extra| - 1]];
    }
  }

  lemma {:induction false} DistinctSame(ports: seq<LanPort>, p: LanPort)
    ensures p in Distinct(ports) <==> p in ports
  {
    if ports != [] {
      DistinctSame(ports[..|ports| - 1], p);
      assert ports == ports[..|ports| - 1] + [ports[|ports| - 1]];
    }
  }

  /**
   Coherence.  Whatever the interleaving, while fewer than 2^64 changes were made: whenever the
   generations match and no setter is midway, the filter admits exactly the pack's ports, the
   player's, and, with the switch on, every allowable one.
   */
  lemma {:induction false} CacheCoherent(base: Policy, steps: seq<Step>, proto: LanProto, port: U16)
    requires Possible(Start(base), steps)
    requires var w := Run(Start(base), steps); w.filterGeneration == w.Generation() && w.midway == 0
    ensures var w := Run(Start(base), steps);
      && w.filterHigh == w.anyHigh
      && (w.policy.Lists(proto, port) <==> base.Lists(proto, port) || LanPort(proto, port) in w.ports)
      && (var admitted :=
            base.Declares(proto, port) || LanPort(proto, port) in w.ports || (w.anyHigh && IsAllowable(port));
          forall flows, fragments :: State(w.policy, w.filterHigh, flows, fragments).Admits(proto, port) == admitted)
  {
    RunInv(Start(base), steps);
    BaseKept(Start(base), steps);
    var w := Run(Start(base), steps);
    MergedLists(base, w.ports, proto, port);
  }

  lemma {:induction false} BaseKept(w: World, steps: seq<Step>)
    requires Possible(w, steps)
    ensures Run(w, steps).base == w.base
    decreases |steps|
  {
    if steps != [] {
      BaseKept(Do(w, steps[0]), steps[1..]);
    }
  }

  /** A sync nobody interrupts catches up in one go, as LanFilter.SyncExtra does. */
  lemma {:induction false} SyncCatchesUp(w: World)
    requires Inv(w) && w.reading.Idle? && w.Generation() != w.filterGeneration
    ensures var steps := [ReadGeneration, ReadPorts, ReadHigh, Commit];
      && Possible(w, steps)
      && var after := Run(w, steps);
         after == w.(policy := Merged(w.base, w.ports), filterHigh := w.anyHigh, filterGeneration := w.Generation())
  {
    var a := Do(w, ReadGeneration);
    var b := Do(a, ReadPorts);
    var c := Do(b, ReadHigh);
    assert Possible(Do(c, Commit), []);
    assert [Commit][1..] == [] && [ReadHigh, Commit][1..] == [Commit];
    assert [ReadPorts, ReadHigh, Commit][1..] == [ReadHigh, Commit];
    assert [ReadGeneration, ReadPorts, ReadHigh, Commit][1..] == [ReadPorts, ReadHigh, Commit];
    assert Possible(c, [Commit]);
    assert Possible(b, [ReadHigh, Commit]);
    assert Possible(a, [ReadPorts, ReadHigh, Commit]);
  }

  /** A sync takes what it read when it read it: what is written after that waits for the next one. */
  lemma {:induction false} TakesWhatItRead(w: World, wanted: seq<LanPort>, on: bool)
    requires w.reading.SawGeneration? && Refusal(wanted).None?
    ensures var read := Do(w, ReadPorts);
      var after := Do(Do(Do(read, WritePorts(wanted)), ReadHigh), Commit);
      after.policy == Merged(w.base, w.ports) && after.filterHigh == w.anyHigh
    ensures var read := Do(Do(w, ReadPorts), ReadHigh);
      var after := Do(Do(Do(read, WriteHigh(on)), WritePorts(wanted)), Commit);
      && after.policy == Merged(w.base, w.ports) && after.filterHigh == w.anyHigh
      && after.filterGeneration == w.reading.generation && after.reading.Idle?
  {
  }
}
