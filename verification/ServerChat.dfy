/**
 The chat beside a server (`server_chat.rs`): members, log and mutes.  Each member's queue holds
 what was put on its stream, in order.  What a roster frame lists is left out.
 */
module ServerChat {
  import opened Wire
  import opened Text
  import Gates
  import ChatWire

  type LinkId = nat

  const HISTORY := 50

  datatype Line = Line(number: nat, from: Identity, text: Text, at: ChatWire.U64)

  datatype Queued = Greeting | Roster | Spoken(line: Line)

  datatype Member = Member(identity: Option<Identity>, name: Text, queue: seq<Queued>) {
    function Queue(q: Queued): Member { this.(queue := queue + [q]) }
  }

  datatype Log = Log(kept: seq<Line>, next: nat) {
    function Pushed(line: Line): Log {
      var all := kept + [line];
      Log(if |all| > HISTORY then all[|all| - HISTORY..] else all, next + 1)
    }
  }

  function Sent(members: map<LinkId, Member>, q: Queued): (r: map<LinkId, Member>)
    ensures forall l :: l in r <==> l in members
    ensures forall l :: l in r ==> r[l] == members[l].Queue(q)
  {
    map l | l in members :: members[l].Queue(q)
  }

  function Speak(lines: seq<Line>): (r: seq<Queued>)
    ensures |r| == |lines|
  {
    if lines == [] then [] else Speak(lines[..|lines| - 1]) + [Spoken(lines[|lines| - 1])]
  }

  // ---------------------------------------------------------------- the hub and its operations

  datatype Op =
    | Hello(link: LinkId, name: Text)
    | Identified(link: LinkId, identity: Identity)
    | Left(link: LinkId)
    | SetEnabled(on: bool)
    | SetHostName(name: Text)
    | SetMuted(identity: Identity, muted: bool)
    | Say(link: LinkId, text: Text, now: nat, at: ChatWire.U64)
    | HostSay(text: Text, at: ChatWire.U64)

  datatype State = State(enabled: bool, host: Identity, members: map<LinkId, Member>, log: Log,
                         gate: Gates.Gate, muted: set<Identity>, hostName: Text)
  {
    function RosterSent(): State { this.(members := Sent(members, Roster)) }

    /** A line, numbered, kept and sent to everyone. */
    function Said(from: Identity, text: Text, at: ChatWire.U64): (State, Option<Line>) {
      var line := Line(log.next + 1, from, text, at);
      (this.(log := log.Pushed(line), members := Sent(members, Spoken(line))), Some(line))
    }

    /** What an operation does, and the line it says, if it says one. */
    function Do(op: Op): (State, Option<Line>)
      requires gate.limit.Valid()
    {
      match op
      case Hello(link, name) =>
        (this.(members := members[link := Member(None, name, [Greeting, Roster] + Speak(log.kept))]), None)
      case Identified(link, identity) =>
        if link !in members then (this, None)
        else (this.(members := members[link := members[link].(identity := Some(identity))]).RosterSent(), None)
      case Left(link) =>
        if link !in members then (this, None)
        else
          var s := this.(members := members - {link});
          (if members[link].identity.Some? then s.RosterSent() else s, None)
      case SetEnabled(on) => (this.(enabled := on, members := if on then members else map[]), None)
      case SetHostName(name) =>
        if ValidName(name) then (this.(hostName := name).RosterSent(), None) else (this, None)
      case SetMuted(identity, muted) =>
        (this.(muted := if muted then this.muted + {identity} else this.muted - {identity}), None)
      case Say(link, text, now, at) =>
        if !enabled || !ValidChat(text) || link !in members || members[link].identity.None? then (this, None)
        else
          var identity := members[link].identity.value;
          if identity in muted then (this, None)
          else
            var (g, allowed) := gate.Allow(identity, [], now);
            var s := this.(gate := g);
            if allowed then s.Said(identity, text, at) else (s, None)
      case HostSay(text, at) => if !enabled || !ValidChat(text) then (this, None) else Said(host, text, at)
    }
  }

  // ---------------------------------------------------------------- the class

  class ChatHub {
    var enabled: bool
    const host: Identity
    var members: map<LinkId, Member>
    var kept: seq<Line>
    var next: nat
    const gate: Gates.ChatGate
    var muted: set<Identity>
    var hostName: Text

    function Model(): State
      reads this, gate
    {
      State(enabled, host, members, Log(kept, next), gate.Model(), muted, hostName)
    }

    constructor (enabled: bool, host: Identity, hostName: Text)
      ensures Model() == Start(enabled, host, hostName) && fresh(gate)
    {
      this.enabled, this.host, this.hostName := enabled, host, hostName;
      members, kept, next, muted := map[], [], 0, {};
      gate := new Gates.ChatGate();
    }

    method SendAll(q: Queued)
      modifies this`members
      ensures members == Sent(old(members), q)
    {
      var left := members.Keys;
      ghost var before := members;
      while left != {}
        invariant left <= before.Keys == members.Keys
        invariant forall l :: l in members ==> members[l] == if l in left then before[l] else before[l].Queue(q)
      {
        var l :| l in left;
        members := members[l := members[l].(queue := members[l].queue + [q])];
        left := left - {l};
      }
    }

    method Push(from: Identity, text: Text, at: ChatWire.U64) returns (line: Line)
      modifies this`kept, this`next
      ensures line == Line(old(next) + 1, from, text, at)
      ensures Log(kept, next) == Log(old(kept), old(next)).Pushed(line)
    {
      next := next + 1;
      line := Line(next, from, text, at);
      kept := kept + [line];
      ghost var all := kept;
      assert all == old(kept) + [line];
      while |kept| > HISTORY
        invariant next == old(next) + 1
        invariant |kept| <= |all| && kept == all[|all| - |kept|..]
        invariant |all| > HISTORY ==> |kept| >= HISTORY
        invariant |all| <= HISTORY ==> kept == all
      {
        kept := kept[1..];
      }
    }

    method SetEnabled(on: bool) returns (ended: set<LinkId>)
      modifies this
      ensures Model() == old(Model()).Do(Op.SetEnabled(on)).0
      ensures ended == if on then {} else old(members).Keys
    {
      enabled := on;
      if on {
        return {};
      }
      ended := members.Keys;
      members := map[];
    }

    method SetHostName(name: Text) returns (done: bool)
      modifies this
      ensures Model() == old(Model()).Do(Op.SetHostName(name)).0 && done == ValidName(name)
    {
      hide ValidName;
      if !ValidName(name) {
        return false;
      }
      hostName := name;
      SendAll(Roster);
      done := true;
    }

    method SetMuted(identity: Identity, mute: bool)
      modifies this
      ensures Model() == old(Model()).Do(Op.SetMuted(identity, mute)).0
    {
      muted := if mute then muted + {identity} else muted - {identity};
    }

    /** A link joins the chat, and is told what it missed. */
    method Hello(link: LinkId, name: Text)
      modifies this
      ensures Model() == old(Model()).Do(Op.Hello(link, name)).0
    {
      var queue := [Greeting, Roster];
      for i := 0 to |kept|
        invariant queue == [Greeting, Roster] + Speak(kept[..i])
      {
        assert kept[..i + 1][..i] == kept[..i];
        queue := queue + [Spoken(kept[i])];
      }
      assert kept[..|kept|] == kept;
      members := members[link := Member(None, name, queue)];
    }

    method Identified(link: LinkId, identity: Identity)
      modifies this
      ensures Model() == old(Model()).Do(Op.Identified(link, identity)).0
    {
      if link !in members {
        return;
      }
      members := members[link := members[link].(identity := Some(identity))];
      SendAll(Roster);
    }

    method Left(link: LinkId)
      modifies this
      ensures Model() == old(Model()).Do(Op.Left(link)).0
    {
      if link !in members {
        return;
      }
      var gone := members[link];
      members := members - {link};
      if gone.identity.Some? {
        SendAll(Roster);
      }
    }

    /** A line from a link; nothing happens unless it may speak. */
    method Say(link: LinkId, text: Text, now: nat, at: ChatWire.U64) returns (said: bool)
      modifies this, gate
      ensures (Model(), said) == (old(Model()).Do(Op.Say(link, text, now, at)).0,
                                  old(Model()).Do(Op.Say(link, text, now, at)).1.Some?)
    {
      hide ValidChat, Gates.Gate.Allow;
      if !enabled || !ValidChat(text) || link !in members || members[link].identity.None? {
        return false;
      }
      var identity := members[link].identity.value;
      if identity in muted {
        return false;
      }
      var allowed := gate.Allow(identity, now);
      if !allowed {
        return false;
      }
      var line := Push(identity, text, at);
      SendAll(Spoken(line));
      said := true;
    }

    method HostSay(text: Text, at: ChatWire.U64) returns (line: Option<Line>)
      modifies this
      ensures (Model(), line) == old(Model()).Do(Op.HostSay(text, at))
    {
      hide ValidChat;
      if !enabled || !ValidChat(text) {
        return None;
      }
      var spoken := Push(host, text, at);
      SendAll(Spoken(spoken));
      line := Some(spoken);
    }
  }

  function Start(enabled: bool, host: Identity, hostName: Text): State {
    State(enabled, host, map[], Log([], 0), Gates.Gate(Gates.CHAT, map[]), {}, hostName)
  }

  // ---------------------------------------------------------------- runs

  lemma DoKeepsLimit(s: State, op: Op)
    requires s.gate.limit.Valid()
    ensures s.Do(op).0.gate.limit == s.gate.limit && s.Do(op).0.host == s.host
  {
    hide ValidChat, ValidName;
  }

  /** Where a run ends, and every line said on the way. */
  function Run(s: State, ops: seq<Op>): (r: (State, seq<Line>))
    requires s.gate.limit.Valid()
    ensures r.0.gate.limit == s.gate.limit && r.0.host == s.host
  {
    if ops == [] then (s, [])
    else
      var (before, said) := Run(s, ops[..|ops| - 1]);
      DoKeepsLimit(before, ops[|ops| - 1]);
      var (after, line) := before.Do(ops[|ops| - 1]);
      (after, if line.Some? then said + [line.value] else said)
  }

  /** The last 50 of a run's lines. */
  function LastOf(lines: seq<Line>): seq<Line> {
    if |lines| > 50 then lines[|lines| - 50..] else lines
  }

  predicate Numbered(lines: seq<Line>) { forall i :: 0 <= i < |lines| ==> lines[i].number == i + 1 }

  lemma LastOfPush(lines: seq<Line>, line: Line)
    ensures var all := LastOf(lines) + [line];
      LastOf(lines + [line]) == if |all| > HISTORY then all[|all| - HISTORY..] else all
  {
  }

  lemma SaysOne(s: State, op: Op)
    requires s.gate.limit.Valid()
    ensures var (after, line) := s.Do(op);
      if line.Some? then line.value.number == s.log.next + 1 && after.log == s.log.Pushed(line.value)
      else after.log == s.log
  {
    hide ValidChat, ValidName, Gates.Gate.Allow;
  }

  /** Lines are numbered from 1 without gap or repeat, and the log keeps the last HISTORY of them. */
  lemma {:induction false} LogIsLast(enabled: bool, host: Identity, hostName: Text, ops: seq<Op>)
    ensures var (s, said) := Run(Start(enabled, host, hostName), ops);
      Numbered(said) && s.log.next == |said| && s.log.kept == LastOf(said)
  {
    hide State.Do;
    if ops != [] {
      var init := ops[..|ops| - 1];
      LogIsLast(enabled, host, hostName, init);
      var (before, said) := Run(Start(enabled, host, hostName), init);
      SaysOne(before, ops[|ops| - 1]);
      var line := before.Do(ops[|ops| - 1]).1;
      if line.Some? {
        LastOfPush(said, line.value);
      }
    }
  }

  // ---------------------------------------------------------------- what a member hears

  /** The lines on a queue, in order. */
  function Heard(queue: seq<Queued>): seq<Line> {
    if queue == [] then []
    else
      var q := queue[|queue| - 1];
      if q.Spoken? then Heard(queue[..|queue| - 1]) + [q.line] else Heard(queue[..|queue| - 1])
  }

  lemma {:induction false} HeardMore(queue: seq<Queued>, q: Queued)
    ensures Heard(queue + [q]) == if q.Spoken? then Heard(queue) + [q.line] else Heard(queue)
  {
    assert (queue + [q])[..|queue|] == queue;
  }

  lemma {:induction false} HeardSpeech(queue: seq<Queued>, lines: seq<Line>)
    ensures Heard(queue + Speak(lines)) == Heard(queue) + lines
  {
    hide Heard;
    if lines == [] {
      assert queue + [] == queue && Heard(queue) + [] == Heard(queue);
    } else {
      var init := lines[..|lines| - 1];
      HeardSpeech(queue, init);
      var last := Spoken(lines[|lines| - 1]);
      assert queue + Speak(lines) == queue + Speak(init) + [last];
      HeardMore(queue + Speak(init), last);
      assert Heard(queue) + init + [lines[|lines| - 1]] == Heard(queue) + lines;
    }
  }

  /** Ends a link's membership, or starts it over. */
  predicate Ends(op: Op, link: LinkId) {
    (op.Hello? && op.link == link) || (op.Left? && op.link == link) || (op.SetEnabled? && !op.on)
  }

  /** One operation puts on a member's queue the line it says, and no other. */
  lemma {:induction false} StepHeard(s: State, op: Op, link: LinkId)
    requires s.gate.limit.Valid() && link in s.members && !Ends(op, link)
    ensures var (after, line) := s.Do(op);
      && link in after.members
      && Heard(after.members[link].queue)
         == if line.Some? then Heard(s.members[link].queue) + [line.value] else Heard(s.members[link].queue)
  {
    hide ValidChat, ValidName, Gates.Gate.Allow, Heard;
    var queue := s.members[link].queue;
    HeardMore(queue, Roster);
    var (after, line) := s.Do(op);
    if line.Some? {
      HeardMore(queue, Spoken(line.value));
    }
  }

  /** A link that says Hello has been told the lines kept, in order. */
  lemma HelloHears(s: State, link: LinkId, name: Text)
    requires s.gate.limit.Valid()
    ensures var after := s.Do(Hello(link, name)).0;
      link in after.members && Heard(after.members[link].queue) == s.log.kept
  {
    hide Speak;
    var queue := [Greeting, Roster];
    HeardMore([], Greeting);
    HeardMore([Greeting], Roster);
    assert [] + [Greeting] == [Greeting] && [Greeting] + [Roster] == queue;
    HeardSpeech(queue, s.log.kept);
    assert [] + s.log.kept == s.log.kept;
  }

  lemma {:induction false} HearsOn(s: State, ops: seq<Op>, link: LinkId)
    requires s.gate.limit.Valid() && link in s.members && forall i :: 0 <= i < |ops| ==> !Ends(ops[i], link)
    ensures var (after, said) := Run(s, ops);
      link in after.members && Heard(after.members[link].queue) == Heard(s.members[link].queue) + said
  {
    hide State.Do, Heard;
    if ops == [] {
      var before := Heard(s.members[link].queue);
      assert before + [] == before;
    } else {
      var init := ops[..|ops| - 1];
      HearsOn(s, init, link);
      var (before, said) := Run(s, init);
      StepHeard(before, ops[|ops| - 1], link);
      var heard := Heard(s.members[link].queue);
      var line := before.Do(ops[|ops| - 1]).1;
      if line.Some? {
        assert heard + said + [line.value] == heard + (said + [line.value]);
      }
    }
  }

  /**
   Totally ordered broadcast: whatever was done before a member's Hello and after, the lines on
   its queue are the last HISTORY said before it, then every line said since, each once, in the
   order of their numbers, until it leaves or chat is turned off.
   */
  lemma {:induction false} MembersHearAll(enabled: bool, host: Identity, hostName: Text, earlier: seq<Op>,
                                          link: LinkId, name: Text, later: seq<Op>)
    requires forall i :: 0 <= i < |later| ==> !Ends(later[i], link)
    ensures var (before, said) := Run(Start(enabled, host, hostName), earlier);
      var joined := before.Do(Hello(link, name)).0;
      && joined.gate.limit.Valid()
      && var (after, since) := Run(joined, later);
         link in after.members && Heard(after.members[link].queue) == LastOf(said) + since
  {
    hide State.Do, Heard;
    LogIsLast(enabled, host, hostName, earlier);
    var before := Run(Start(enabled, host, hostName), earlier).0;
    DoKeepsLimit(before, Hello(link, name));
    HelloHears(before, link, name);
    HearsOn(before.Do(Hello(link, name)).0, later, link);
  }

  // ---------------------------------------------------------------- who said it

  /** The link's last proof of who it is, since its Hello. */
  predicate ProvedBy(ops: seq<Op>, link: LinkId, identity: Identity) {
    exists k :: 0 <= k < |ops| && ops[k] == Identified(link, identity)
                && forall i :: k < i < |ops| ==> !Ends(ops[i], link) && !(ops[i].Identified? && ops[i].link == link)
  }

  lemma ProofLasts(ops: seq<Op>, op: Op, link: LinkId, identity: Identity)
    requires ProvedBy(ops, link, identity) && !Ends(op, link) && !(op.Identified? && op.link == link)
    ensures ProvedBy(ops + [op], link, identity)
  {
    var all := ops + [op];
    var k :| 0 <= k < |ops| && ops[k] == Identified(link, identity)
             && forall i :: k < i < |ops| ==> !Ends(ops[i], link) && !(ops[i].Identified? && ops[i].link == link);
    assert all[k] == Identified(link, identity);
    forall i | k < i < |all| ensures !Ends(all[i], link) && !(all[i].Identified? && all[i].link == link) {
      assert all[i] == if i < |ops| then ops[i] else op;
    }
  }

  lemma StepIdentity(s: State, op: Op, link: LinkId)
    requires s.gate.limit.Valid() && link in s.Do(op).0.members && s.Do(op).0.members[link].identity.Some?
    ensures op == Identified(link, s.Do(op).0.members[link].identity.value)
      || (link in s.members && s.members[link].identity == s.Do(op).0.members[link].identity
          && !Ends(op, link) && !(op.Identified? && op.link == link))
  {
    hide ValidChat, ValidName, Gates.Gate.Allow;
  }

  /** A member's identity is one its link proved. */
  lemma {:induction false} IdentityProved(s: State, ops: seq<Op>, link: LinkId)
    requires s.gate.limit.Valid() && s.members == map[]
    requires var m := Run(s, ops).0.members; link in m && m[link].identity.Some?
    ensures ProvedBy(ops, link, Run(s, ops).0.members[link].identity.value)
  {
    hide State.Do, ProvedBy;
    var init, op := ops[..|ops| - 1], ops[|ops| - 1];
    var before := Run(s, init).0;
    assert ops == init + [op];
    StepIdentity(before, op, link);
    var identity := Run(s, ops).0.members[link].identity.value;
    if op == Identified(link, identity) {
      JustProved(init, link, identity);
    } else {
      IdentityProved(s, init, link);
      ProofLasts(init, op, link, identity);
    }
  }

  lemma JustProved(ops: seq<Op>, link: LinkId, identity: Identity)
    ensures ProvedBy(ops + [Identified(link, identity)], link, identity)
  {
    assert (ops + [Identified(link, identity)])[|ops|] == Identified(link, identity);
  }

  /** Every line is stamped with the host's identity, or one the link that said it had proved. */
  lemma {:induction false} LinesAreStamped(enabled: bool, host: Identity, hostName: Text, ops: seq<Op>, op: Op)
    requires Run(Start(enabled, host, hostName), ops).0.Do(op).1.Some?
    ensures var line := Run(Start(enabled, host, hostName), ops).0.Do(op).1.value;
      && ValidChat(line.text)
      && if op.HostSay? then line.from == host else op.Say? && ProvedBy(ops, op.link, line.from)
  {
    hide ValidChat, ValidName, Gates.Gate.Allow, ProvedBy;
    var s := Run(Start(enabled, host, hostName), ops).0;
    if op.Say? {
      IdentityProved(Start(enabled, host, hostName), ops, op.link);
    }
  }

  // ---------------------------------------------------------------- who may speak

  /** Whether chat is on: as it began, or as it was set last. */
  function IsOn(enabled: bool, ops: seq<Op>): bool {
    if ops == [] then enabled
    else
      var op := ops[|ops| - 1];
      if op.SetEnabled? then op.on else IsOn(enabled, ops[..|ops| - 1])
  }

  /** Whether an identity is muted: as it was set last, and not to begin with. */
  function IsMuted(ops: seq<Op>, identity: Identity): bool {
    if ops == [] then false
    else
      var op := ops[|ops| - 1];
      if op.SetMuted? && op.identity == identity then op.muted else IsMuted(ops[..|ops| - 1], identity)
  }

  /** Who is on a link that said Hello and has not left: what it proved last, if anything; None, if there is nobody. */
  function WhoIs(ops: seq<Op>, link: LinkId): Option<Option<Identity>> {
    if ops == [] then None
    else
      var op, before := ops[|ops| - 1], WhoIs(ops[..|ops| - 1], link);
      if op.Hello? && op.link == link then Some(None)
      else if Ends(op, link) then None
      else if op.Identified? && op.link == link && before.Some? then Some(Some(op.identity))
      else before
  }

  lemma {:induction false} HistoryIs(enabled: bool, host: Identity, hostName: Text, ops: seq<Op>, link: LinkId,
                                     identity: Identity)
    ensures var s := Run(Start(enabled, host, hostName), ops).0;
      && s.enabled == IsOn(enabled, ops) && (identity in s.muted <==> IsMuted(ops, identity))
      && WhoIs(ops, link) == (if link in s.members then Some(s.members[link].identity) else None)
  {
    hide State.Do;
    if ops != [] {
      var init, op := ops[..|ops| - 1], ops[|ops| - 1];
      HistoryIs(enabled, host, hostName, init, link, identity);
      StepHistory(Run(Start(enabled, host, hostName), init).0, op, link, identity);
    }
  }

  lemma StepHistory(s: State, op: Op, link: LinkId, identity: Identity)
    requires s.gate.limit.Valid()
    ensures var after := s.Do(op).0;
      && after.enabled == (if op.SetEnabled? then op.on else s.enabled)
      && (identity in after.muted <==>
            if op.SetMuted? && op.identity == identity then op.muted else identity in s.muted)
      && (link in after.members <==> (op.Hello? && op.link == link) || (link in s.members && !Ends(op, link)))
      && (link in after.members ==>
            after.members[link].identity ==
              if op.Hello? && op.link == link then None
              else if op.Identified? && op.link == link then Some(op.identity) else s.members[link].identity)
  {
    hide ValidChat, ValidName, Gates.Gate.Allow;
  }

  /**
   A member's line is said exactly if chat is on, the line is plain, its link said Hello, is here
   still and has proved who it is, that identity is not muted, and its rate allows it.  A line that
   is not said changes nothing but the count of a rate that was asked.
   */
  lemma {:induction false} SaidExactly(enabled: bool, host: Identity, hostName: Text, ops: seq<Op>, link: LinkId,
                                       text: Text, now: nat, at: ChatWire.U64)
    ensures var s, who := Run(Start(enabled, host, hostName), ops).0, WhoIs(ops, link);
      var (after, line) := s.Do(Say(link, text, now, at));
      var may := IsOn(enabled, ops) && ValidChat(text) && who.Some? && who.value.Some?
                 && !IsMuted(ops, who.value.value);
      && (line.Some? <==> may && s.gate.Allow(who.value.value, [], now).1)
      && (line.Some? ==> line.value.from == who.value.value && line.value.text == text && line.value.at == at)
      && (line.None? ==> after == s.(gate := if may then s.gate.Allow(who.value.value, [], now).0 else s.gate))
  {
    hide ValidChat, Gates.Gate.Allow;
    var s, who := Run(Start(enabled, host, hostName), ops).0, WhoIs(ops, link);
    var identity := if who.Some? && who.value.Some? then who.value.value else host;
    HistoryIs(enabled, host, hostName, ops, link, identity);
  }

  /** What a roster says has changed: somebody proved who they are, or left, or the host is renamed. */
  predicate ChangesRoster(s: State, op: Op) {
    || (op.Identified? && op.link in s.members)
    || (op.Left? && op.link in s.members && s.members[op.link].identity.Some?)
    || (op.SetHostName? && ValidName(op.name))
  }

  /** Everybody is sent the roster exactly when it changes; a line, if one is said; and nothing else. */
  lemma {:induction false} SentToMember(s: State, op: Op, link: LinkId)
    requires s.gate.limit.Valid() && link in s.members && !Ends(op, link)
    ensures var (after, line) := s.Do(op);
      && link in after.members
      && after.members[link].queue == s.members[link].queue +
           (if ChangesRoster(s, op) then [Roster] else if line.Some? then [Spoken(line.value)] else [])
      && after.hostName == (if op.SetHostName? && ValidName(op.name) then op.name else s.hostName)
  {
    hide ValidChat, ValidName, Gates.Gate.Allow;
  }

  /** A newcomer is welcomed, told who is here, and then the lines kept; turning chat off ends everyone's membership. */
  lemma Welcomed(s: State, link: LinkId, name: Text)
    requires s.gate.limit.Valid()
    ensures var m := s.Do(Hello(link, name)).0.members[link];
      m.identity == None && m.name == name && m.queue == [Greeting, Roster] + Speak(s.log.kept)
    ensures s.Do(SetEnabled(false)).0.members == map[]
  {
  }
}
