/**
 A room with all its members, over every run from its opening: each member's side is the world of
 RoomProtocol, all of them around one host.
 */
module RoomRuns {
  import opened Wire
  import opened Subnet
  import opened Members
  import opened RoomView
  import opened RoomProtocol
  import Text
  import Host
  import HostLaws
  import MemberSide

  /** A member's own part of the world. */
  datatype Party = Party(member: MemberSide.State, mine: set<LinkId>, connecting: Option<LinkId>,
                         born: map<LinkId, nat>, at: Option<nat>)

  datatype Room = Room(host: Host.State, seen: set<LinkId>, tables: seq<Table>, stamps: map<LinkId, seq<nat>>,
                       parties: map<Identity, Party>)

  /** The world as one member lives in it. */
  function WorldOf(r: Room, p: Party): World {
    World(r.host, p.member, r.seen, p.mine, p.connecting, r.tables, r.stamps, p.born, p.at)
  }

  datatype RoomStep = HostStep(e: Host.Event) | MemberStep(who: Identity, step: Step)

  predicate MayInRoom(r: Room, s: RoomStep) {
    match s
    case HostStep(e) =>
      r.host.Admissible(e) && forall i :: i in r.parties ==> May(WorldOf(r, r.parties[i]), HostTurn(e))
    case MemberStep(who, step) =>
      && who in r.parties && !step.HostTurn? && May(WorldOf(r, r.parties[who]), step)
      && (step.Connect? ==> forall i :: i in r.parties ==> step.link !in r.parties[i].mine)
  }

  function After(r: Room, s: RoomStep): Room
    requires HostReady(r.host) && MayInRoom(r, s)
    requires s.MemberStep? ==> Ready(WorldOf(r, r.parties[s.who]))
  {
    match s
    case HostStep(e) =>
      var host := r.host.OnEvent(e);
      var tables := Recorded(r.tables, r.host.table, host.table);
      r.(host := host, tables := tables, seen := if e.LinkEstablished? then r.seen + {e.link} else r.seen,
         stamps := Stamped(r.stamps, host.log, if tables == [] then 0 else |tables| - 1))
    case MemberStep(who, step) =>
      var w := Do(WorldOf(r, r.parties[who]), step);
      r.(parties := r.parties[who := Party(w.member, w.mine, w.connecting, w.born, w.at)])
  }

  predicate HostReady(host: Host.State) {
    host.table.subnet.Valid() && host.gate.limit.Valid() && host.chatGate.limit.Valid()
  }

  /** The host is sound, and every member's world keeps the agreement invariant. */
  ghost predicate RoomInv(r: Room) {
    && r.host.Valid() && HostReady(r.host) && r.tables != []
    && forall i :: i in r.parties ==> PartyInv(r, i)
  }

  ghost predicate PartyInv(r: Room, i: Identity)
    requires i in r.parties
  {
    Inv(WorldOf(r, r.parties[i])) && r.parties[i].member.view.own == i
  }

  /** A host's turn is that turn in every member's world. */
  lemma HostStepInv(r: Room, e: Host.Event)
    requires RoomInv(r) && MayInRoom(r, HostStep(e)) && |After(r, HostStep(e)).tables| <= 0x8000_0000
    ensures RoomInv(After(r, HostStep(e)))
  {
    hide Host.State.Valid, Host.State.OnEvent, Inv, RoomSubnet.Valid;
    var after := After(r, HostStep(e));
    HostLaws.StepValid(r.host, e);
    ValidIsReady(after.host);
    forall i | i in after.parties ensures PartyInv(after, i) {
      assert PartyInv(r, i);
      var w := WorldOf(r, r.parties[i]);
      InvIsReady(w);
      assert WorldOf(after, after.parties[i]) == HostTurned(w, e);
      HostTurnOk(w, e);
    }
  }

  lemma InvIsReady(w: World)
    requires Inv(w)
    ensures Ready(w)
  {
    hide HostOk, MemberOk, RoomSubnet.Valid;
  }

  /** A member's step is its own world's, and nothing in anyone else's. */
  lemma MemberStepInv(r: Room, who: Identity, step: Step)
    requires RoomInv(r) && MayInRoom(r, MemberStep(who, step)) && Ready(WorldOf(r, r.parties[who]))
    requires |r.tables| <= 0x8000_0000
    ensures RoomInv(After(r, MemberStep(who, step)))
  {
    hide Host.State.Valid, Inv, RoomSubnet.Valid, Do;
    var after, w := After(r, MemberStep(who, step)), WorldOf(r, r.parties[who]);
    assert PartyInv(r, who);
    OwnTurn(w, step);
    StepInv(w, step);
    forall i | i in after.parties ensures PartyInv(after, i) {
      if i != who {
        assert PartyInv(r, i);
      } else {
        assert WorldOf(after, after.parties[who]) == Do(w, step);
      }
    }
  }

  /** What a member does changes nothing of the host's, nor who it is. */
  lemma OwnTurn(w: World, step: Step)
    requires Inv(w) && Ready(w) && May(w, step) && !step.HostTurn?
    ensures var after := Do(w, step);
      && after.host == w.host && after.seen == w.seen && after.tables == w.tables && after.stamps == w.stamps
      && after.member.view.own == w.member.view.own
  {
    hide RoomSubnet.Valid, Host.State.Valid, MemberSide.State.OnEvent, HostOk, MemberOk;
    match step
    case MemberTurn(e) => SentOnlyTouches(w.member, e);
    case Deliver(l, k) => DeliveryIs(w, l, k);
    case _ =>
  }

  ghost predicate CanStep(r: Room, s: RoomStep)
    requires RoomInv(r)
  {
    && MayInRoom(r, s)
    && (s.MemberStep? ==> Ready(WorldOf(r, r.parties[s.who])))
    && |After(r, s).tables| <= 0x8000_0000
  }

  lemma RoomStepInv(r: Room, s: RoomStep)
    requires RoomInv(r) && CanStep(r, s)
    ensures RoomInv(After(r, s))
  {
    hide RoomInv, Host.State.Valid, Inv, Ready, RoomSubnet.Valid;
    match s
    case HostStep(e) => HostStepInv(r, e);
    case MemberStep(who, step) => MemberStepInv(r, who, step);
  }

  /** A run, in which the host's table changes fewer than 2^31 times. */
  ghost predicate CanRunRoom(r: Room, steps: seq<RoomStep>)
    requires RoomInv(r)
    decreases |steps|
  {
    steps != [] ==>
      CanStep(r, steps[0]) && (RoomStepInv(r, steps[0]); CanRunRoom(After(r, steps[0]), steps[1..]))
  }

  ghost function RunRoom(r: Room, steps: seq<RoomStep>): Room
    requires RoomInv(r) && CanRunRoom(r, steps)
    decreases |steps|
  {
    if steps == [] then r else RoomStepInv(r, steps[0]); RunRoom(After(r, steps[0]), steps[1..])
  }

  /** The room as it opens, with members yet to link to it. */
  function Opened(host: Host.State, names: map<Identity, Option<Text.Text>>, subnet: RoomSubnet): Room {
    Room(host, {}, [host.table], map[],
         map i | i in names :: Party(MemberSide.State(None, NewView(i, subnet), names[i], Lines([], 0, 0), [], []),
                                     {}, None, map[], None))
  }

  lemma OpenedInv(own: Identity, allowlist: seq<Identity>, subnet: RoomSubnet, capacity: nat, name: Option<Text.Text>,
                  names: map<Identity, Option<Text.Text>>, known: RoomSubnet)
    requires subnet.Valid() && known.Valid()
    ensures RoomInv(Opened(Host.Opening(own, allowlist, subnet, capacity, name), names, known))
  {
    hide Host.State.Valid, RoomSubnet.Valid, Inv;
    var host := Host.Opening(own, allowlist, subnet, capacity, name);
    HostLaws.OpeningValid(own, allowlist, subnet, capacity, name);
    ValidIsReady(host);
    var r := Opened(host, names, known);
    forall i | i in r.parties ensures PartyInv(r, i) {
      StartInv(host, r.parties[i].member);
    }
  }

  /** A room opening, with what its host was asked for. */
  datatype Plan = Plan(own: Identity, allowlist: seq<Identity>, subnet: RoomSubnet, capacity: nat,
                       name: Option<Text.Text>)

  ghost function Opening(plan: Plan, names: map<Identity, Option<Text.Text>>, known: RoomSubnet): (r: Room)
    requires plan.subnet.Valid() && known.Valid()
    ensures RoomInv(r) && r.parties.Keys == names.Keys
  {
    OpenedInv(plan.own, plan.allowlist, plan.subnet, plan.capacity, plan.name, names, known);
    Opened(Host.Opening(plan.own, plan.allowlist, plan.subnet, plan.capacity, plan.name), names, known)
  }

  // ---------------------------------------------------------------- what every run keeps

  /** No member's copy goes back, nor a table out of the host's history. */
  predicate Onward(r: Room, after: Room) {
    && r.tables <= after.tables && after.parties.Keys == r.parties.Keys
    && forall i :: i in r.parties ==> Place(WorldOf(r, r.parties[i])) <= Place(WorldOf(after, after.parties[i]))
  }

  lemma StepOnward(r: Room, s: RoomStep)
    requires RoomInv(r) && CanStep(r, s)
    ensures Onward(r, After(r, s))
  {
    hide Host.State.Valid, Host.State.OnEvent, Inv, Ready, RoomSubnet.Valid, Do;
    if s.MemberStep? {
      var w := WorldOf(r, r.parties[s.who]);
      assert PartyInv(r, s.who);
      InvIsReady(w);
      OwnTurn(w, s.step);
      StepForward(w, s.step);
    }
  }

  lemma {:induction false} RunOnward(r: Room, steps: seq<RoomStep>)
    requires RoomInv(r) && CanRunRoom(r, steps)
    ensures RoomInv(RunRoom(r, steps)) && Onward(r, RunRoom(r, steps))
    decreases |steps|
  {
    hide Host.State.Valid, Host.State.OnEvent, Inv, Ready, Do;
    if steps != [] {
      StepOnward(r, steps[0]);
      RoomStepInv(r, steps[0]);
      RunOnward(After(r, steps[0]), steps[1..]);
    }
  }

  /** A member that has a copy at all. */
  predicate HasTable(r: Room, i: Identity)
    requires i in r.parties
  {
    r.parties[i].at.Some?
  }

  /** The host's table at an epoch it has had. */
  predicate WasTable(r: Room, view: View) {
    exists k :: 0 <= k < |r.tables| && Copies(view, r.tables[k])
  }

  /**
   Agreement, over every run from a room's opening, whatever is lost, repeated or reordered and
   whoever reconnects: each member's copy, once it has one, is whole one of the tables the host
   had; any two members at the same epoch have the same table, and so have a member and the host;
   and no copy ever goes back.
   */
  lemma {:induction false} RoomAgrees(plan: Plan, names: map<Identity, Option<Text.Text>>, known: RoomSubnet,
                                      steps: seq<RoomStep>, i: Identity, j: Identity)
    requires plan.subnet.Valid() && known.Valid() && i in names && j in names
    requires CanRunRoom(Opening(plan, names, known), steps)
    ensures var start := Opening(plan, names, known);
      var r := RunRoom(start, steps);
      && RoomInv(r) && Onward(start, r) && i in r.parties && j in r.parties
      && (HasTable(r, i) ==> WasTable(r, r.parties[i].member.view))
      && (HasTable(r, i) && r.parties[i].member.view.epoch == r.host.table.epoch ==>
            Copies(r.parties[i].member.view, r.host.table))
      && (HasTable(r, i) && HasTable(r, j) && r.parties[i].member.view.epoch == r.parties[j].member.view.epoch ==>
            SameTable(r.parties[i].member.view, r.parties[j].member.view))
  {
    hide Host.State.Valid, Host.Opening, Opening, RoomInv, CanRunRoom, RunRoom, Inv, Ready;
    var start := Opening(plan, names, known);
    RunOnward(start, steps);
    var r := RunRoom(start, steps);
    if HasTable(r, i) {
      ViewsAgree(r, i, j);
    }
  }

  predicate SameTable(v: View, u: View) { v.members == u.members && v.subnet == u.subnet }

  lemma {:induction false} ViewsAgree(r: Room, i: Identity, j: Identity)
    requires RoomInv(r) && i in r.parties && j in r.parties && HasTable(r, i)
    ensures WasTable(r, r.parties[i].member.view)
    ensures r.parties[i].member.view.epoch == r.host.table.epoch ==> Copies(r.parties[i].member.view, r.host.table)
    ensures HasTable(r, j) && r.parties[i].member.view.epoch == r.parties[j].member.view.epoch ==>
              SameTable(r.parties[i].member.view, r.parties[j].member.view)
  {
    hide Host.State.Valid, Chain, LogOk, AddressOf, Table.Valid, RoomSubnet.Valid;
    assert PartyInv(r, i) && PartyInv(r, j);
    var w, v := WorldOf(r, r.parties[i]), WorldOf(r, r.parties[j]);
    assert Copies(r.parties[i].member.view, r.tables[w.at.value]);
    if w.member.view.epoch == r.host.table.epoch {
      EpochIsTable(w, |r.tables| - 1);
    }
    if v.at.Some? && v.member.view.epoch == w.member.view.epoch {
      EpochIsTable(w, v.at.value);
    }
  }
}
