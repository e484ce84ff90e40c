/**
 The pump between a member's adapter and its room (`lan_pump.rs`): up, the translator then the
 filter; down, the filter then the translator.
 */
module Pump {
  import opened Wire
  import opened Ipv4
  import opened Subnet
  import Filter
  import Rebinder
  import RoomCheck

  // ---------------------------------------------------------------- what the up half looks for

  /** Background noise: NetBIOS, SSDP, mDNS and the like, sent to everyone. */
  predicate IsChatterBroadcast(p: seq<Byte>, subnet: RoomSubnet)
    requires subnet.Valid()
  {
    match Endpoints(p)
    case None => false
    case Some((_, dst)) =>
      && subnet.IsBroadcast(dst) && p[9] == PROTO_UDP && FragmentOffset(p) == 0
      && |p| >= HeaderLen(p) + 4 && Filter.IsOsChatter(Word(p, HeaderLen(p) + 2))
  }

  /** Which of this member's UDP ports an outgoing "port unreachable" says is closed. */
  function OwnPortUnreachable(p: seq<Byte>, own: Addr): Option<U16> {
    match Endpoints(p)
    case None => None
    case Some((src, _)) =>
      var ihl := HeaderLen(p);
      if src != own || p[9] != PROTO_ICMP || FragmentOffset(p) != 0 || |p| < ihl + 8 then None
      else if p[ihl] != 3 || p[ihl + 1] != 3 then None
      else
        var quoted := p[ihl + 8..];
        match Endpoints(quoted)
        case None => None
        case Some((_, dst)) =>
          var at := HeaderLen(quoted);
          if dst != own || quoted[9] != PROTO_UDP || FragmentOffset(quoted) != 0 || |quoted| < at + 8 then None
          else Some(Word(quoted, at + 2))
  }

  // ---------------------------------------------------------------- the two halves

  /** The filter, with the pack's policy and how much of `extra`, the shared list, it has taken in; the translator. */
  datatype State = State(filter: Filter.State, rebinder: Rebinder.State, base: Filter.Policy, generation: nat,
                         extra: Filter.Extra)
  {
    /** The shared list is taken in whenever it has changed. */
    function Synced(): State {
      if extra.generation == generation then this
      else this.(filter := filter.(policy := Filter.Merged(base, extra.ports), anyHigh := extra.anyHigh),
                 generation := extra.generation)
    }

    /** A packet the machine sent into the adapter: what goes into the room, if anything. */
    function Up(p: seq<Byte>, own: Option<Addr>, subnet: RoomSubnet, now: nat, probe: bool)
      : (State, Option<seq<Byte>>)
      requires subnet.Valid()
    {
      match own
      case None => SendOut(p, subnet, now)
      case Some(room) =>
        var (r, q, done) := rebinder.Outbound(p, room, subnet, now, probe);
        var s := this.(rebinder := r);
        if Endpoints(q).Some? && Endpoints(q).value.0 != room then (s, None)
        else
          var port := OwnPortUnreachable(q, room);
          var asked := if port.Some? then s.Synced() else s;
          if (port.Some? && asked.filter.Admits(Udp, port.value)) || (done.source && IsChatterBroadcast(q, subnet)) then
            (asked, None)
          else asked.SendOut(q, subnet, now)
    }

    function SendOut(p: seq<Byte>, subnet: RoomSubnet, now: nat): (State, Option<seq<Byte>>)
      requires subnet.Valid()
    {
      var s := Synced();
      var (f, allowed) := s.filter.Outbound(p, subnet, now);
      (s.(filter := f), if allowed then Some(p) else None)
    }

    /** A packet the room delivered. */
    function Down(p: seq<Byte>, own: Option<Addr>, subnet: RoomSubnet, now: nat): (State, Outcome)
      requires subnet.Valid()
    {
      var synced := Synced();
      var (f, allowed) := synced.filter.Inbound(p, now);
      var s := synced.(filter := f);
      if !ForUs(p, own, subnet) || !allowed then (s, Dropped)
      else if RoomCheck.IsProbe(p) then (s, Answered(if own.Some? then RoomCheck.Answer(p, own.value) else None))
      else if own.None? then (s, Handed(p))
      else
        var (r, translated) := rebinder.Inbound(p, own.value, now);
        (s.(rebinder := r), Handed(if translated.Some? then translated.value else p))
    }
  }

  datatype Outcome = Dropped | Answered(reply: Option<seq<Byte>>) | Handed(packet: seq<Byte>)

  predicate ForUs(p: seq<Byte>, own: Option<Addr>, subnet: RoomSubnet)
    requires subnet.Valid()
  {
    && Endpoints(p).Some?
    && var dst := Endpoints(p).value.1; Some(dst) == own || subnet.IsBroadcast(dst) || IsMulticast(dst)
  }

  // ---------------------------------------------------------------- the class

  /** The pump's own state, a filter and a translator, each behind its lock; and the session's shared list. */
  class Pump {
    const filter: Filter.LanFilter
    const rebinder: Rebinder.Rebinder
    const extra: Filter.ExtraPorts

    function Model(): State
      reads filter, rebinder, extra
    {
      State(filter.Model(), rebinder.Model(), filter.base, filter.extraGeneration, extra.Model())
    }

    constructor (policy: Filter.Policy, extra: Filter.ExtraPorts)
      ensures this.extra == extra && fresh(filter) && fresh(rebinder)
      ensures Model() == State(Filter.State(policy, false, map[], map[]),
                               Rebinder.State(Rebinder.Survey([], [], []), map[], map[], map[]),
                               policy, 0, extra.Model())
    {
      filter := new Filter.LanFilter(policy);
      rebinder := new Rebinder.Rebinder();
      this.extra := extra;
    }

    method Sync()
      modifies filter
      ensures Model() == old(Model()).Synced()
    {
      filter.SyncExtra(extra);
    }

    /** One turn of the up half: the buffer is translated in place and, if let out, copied to the room. */
    method UpStep(buf: array<Byte>, own: Option<Addr>, subnet: RoomSubnet, now: nat, probe: bool)
      returns (sent: Option<seq<Byte>>)
      requires subnet.Valid()
      modifies buf, filter, rebinder
      ensures (Model(), sent) == old(Model()).Up(old(buf[..]), own, subnet, now, probe)
    {
      hide Filter.Merged, IsChatterBroadcast, OwnPortUnreachable, Rebinder.State.Outbound, Filter.State.Outbound,
           RoomSubnet.Valid;
      if own.Some? {
        var done := rebinder.Outbound(buf, own.value, subnet, now, probe);
        var q := buf[..];
        if Endpoints(q).Some? && Endpoints(q).value.0 != own.value {
          return None;
        }
        var port := OwnPortUnreachable(q, own.value);
        if port.Some? {
          Sync();
          if filter.Admits(Udp, port.value) {
            return None;
          }
        }
        if done.source && IsChatterBroadcast(q, subnet) {
          return None;
        }
      }
      Sync();
      var allowed := filter.Outbound(buf[..], subnet, now);
      sent := if allowed then Some(buf[..]) else None;
    }

    /** One turn of the down half. */
    method DownStep(p: seq<Byte>, own: Option<Addr>, subnet: RoomSubnet, now: nat) returns (outcome: Outcome)
      requires subnet.Valid()
      modifies filter, rebinder
      ensures (Model(), outcome) == old(Model()).Down(p, own, subnet, now)
    {
      Sync();
      var allowed := filter.Inbound(p, now);
      if !ForUs(p, own, subnet) || !allowed {
        return Dropped;
      }
      if RoomCheck.IsProbe(p) {
        return Answered(if own.Some? then RoomCheck.Answer(p, own.value) else None);
      }
      if own.None? {
        return Handed(p);
      }
      var translated := rebinder.Inbound(p, own.value, now);
      outcome := Handed(if translated.Some? then translated.value else p);
    }
  }
}
