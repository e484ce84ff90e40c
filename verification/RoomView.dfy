/** What a side knows about its room, and the chat lines it keeps (`lan_session.rs`). */
module RoomView {
  import opened Wire
  import opened Subnet
  import opened Members
  import opened Text
  import opened Messages

  /** Whether `epoch` is ahead of `known`: the wrapped difference, read as signed, is positive. */
  predicate Ahead(epoch: U32, known: U32) { 0 < (epoch - known) % 0x1_0000_0000 < 0x8000_0000 }

  lemma NextIsAhead(epoch: U32)
    ensures Ahead((epoch + 1) % 0x1_0000_0000, epoch) && (epoch + 1) % 0x1_0000_0000 != epoch
  {
  }

  datatype View = View(own: Identity, address: Option<Addr>, subnet: RoomSubnet, members: seq<Member>, epoch: U32,
                       refused: Option<Refusal>, names: seq<Named>, chat: bool)
  {
    predicate Takes(epoch: U32) { address.None? || Ahead(epoch, this.epoch) || epoch == this.epoch }

    /** A table replaces the view unless its epoch is behind the view's. */
    function Applied(epoch: U32, subnet: RoomSubnet, members: seq<Member>): View {
      if !Takes(epoch) then this
      else this.(address := AddressOf(members, own), epoch := epoch, subnet := subnet, members := members)
    }

    function NameOf(identity: Identity): Option<Text> { NameIn(names, identity) }
  }

  function NameIn(names: seq<Named>, identity: Identity): Option<Text> {
    if names == [] then None
    else if names[0].identity == identity then Some(names[0].name)
    else NameIn(names[1..], identity)
  }

  function NewView(own: Identity, subnet: RoomSubnet): View { View(own, None, subnet, [], 0, None, [], false) }

  class RoomView {
    const own: Identity
    var address: Option<Addr>
    var subnet: RoomSubnet
    var members: seq<Member>
    var epoch: U32
    var refused: Option<Refusal>
    var names: seq<Named>
    var chat: bool

    function Model(): View
      reads this
    {
      View(own, address, subnet, members, epoch, refused, names, chat)
    }

    constructor (own: Identity, subnet: RoomSubnet)
      ensures Model() == NewView(own, subnet)
    {
      this.own, address, this.subnet, members, epoch := own, None, subnet, [], 0;
      refused, names, chat := None, [], false;
    }

    method Apply(epoch: U32, subnet: RoomSubnet, members: seq<Member>)
      modifies this
      ensures Model() == old(Model()).Applied(epoch, subnet, members)
    {
      var newer := address.None? || Ahead(epoch, this.epoch);
      if !newer && epoch != this.epoch {
        return;
      }
      address := AddressOf(members, own);
      this.epoch := epoch;
      this.subnet := subnet;
      this.members := members;
    }
  }

  // ---------------------------------------------------------------- chat

  const CHAT_KEPT := 200

  /** A line of room chat, with the time of day it was kept at. */
  datatype Line = Line(number: nat, from: Identity, text: Text, at: nat)

  /** The lines kept, the number of the last, and the machine's time of day. */
  datatype Lines = Lines(kept: seq<Line>, next: nat, clock: nat) {
    function Pushed(from: Identity, text: Text): Lines {
      var all := kept + [Line(next + 1, from, text, clock)];
      Lines(if |all| > CHAT_KEPT then all[|all| - CHAT_KEPT..] else all, next + 1, clock)
    }
  }

  /** The lines kept are the last 200, or all there were, numbered on from each other up to the last. */
  predicate LastLines(l: Lines) {
    && |l.kept| == (if l.next < 200 then l.next else 200)
    && forall i :: 0 <= i < |l.kept| ==> l.kept[i].number == l.next - |l.kept| + 1 + i
  }

  /** A line comes last, stamped with who, what and when; of those before it, the oldest makes room if need be. */
  lemma PushedLast(l: Lines, from: Identity, text: Text)
    requires LastLines(l)
    ensures var after := l.Pushed(from, text);
      && LastLines(after) && after.next == l.next + 1 && after.clock == l.clock
      && after.kept[|after.kept| - 1] == Line(l.next + 1, from, text, l.clock)
      && after.kept[..|after.kept| - 1] == if l.next < 200 then l.kept else l.kept[1..]
  {
  }

  class ChatLog {
    var kept: seq<Line>
    var next: nat
    var clock: nat

    function Model(): Lines
      reads this
    {
      Lines(kept, next, clock)
    }

    constructor ()
      ensures Model() == Lines([], 0, 0)
    {
      kept, next, clock := [], 0, 0;
    }

    method Push(from: Identity, text: Text)
      modifies this
      ensures Model() == old(Model()).Pushed(from, text)
    {
      next := next + 1;
      kept := kept + [Line(next, from, text, clock)];
      ghost var all := kept;
      assert all == old(kept) + [Line(old(next) + 1, from, text, clock)];
      while |kept| > CHAT_KEPT
        invariant |kept| <= |all| && kept == all[|all| - |kept|..]
        invariant |all| > CHAT_KEPT ==> |kept| >= CHAT_KEPT
        invariant |all| <= CHAT_KEPT ==> kept == all
        invariant next == old(next) + 1 && clock == old(clock)
      {
        kept := kept[1..];
      }
    }
  }
}
