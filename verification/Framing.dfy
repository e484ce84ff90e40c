/** Datagrams cut into link packets and put together again, over up to eight channels (`framing.rs`). */
module Framing {
  import opened Wire

  const MAX_CHUNK := 1900
  const MAX_DATAGRAM := 65_535
  const MAX_CHANNEL := 7

  type Chunk = seq<Byte>

  predicate IsFinal(header: Byte) { header as int % 2 == 1 }

  /** Header bits 1 to 3. */
  function ChannelOf(header: Byte): (r: Byte)
    ensures r <= MAX_CHANNEL
  {
    header as int / 2 % 8
  }

  // ---------------------------------------------------------------- cutting

  function Cut(d: seq<Byte>): seq<Chunk>
    requires d != []
  {
    if |d| <= MAX_CHUNK then [[1] + d] else [[0] + d[..MAX_CHUNK]] + Cut(d[MAX_CHUNK..])
  }

  function Frame(d: seq<Byte>): seq<Chunk> { if d == [] then [[1]] else Cut(d) }

  /** A channel's tag shares no bit with the final flag. */
  function Tagged(chunk: Chunk, channel: Byte): Chunk
    requires chunk != [] && chunk[0] <= 1 && channel <= MAX_CHANNEL
  {
    [chunk[0] + 2 * channel] + chunk[1..]
  }

  predicate Untagged(chunks: seq<Chunk>) { forall i :: 0 <= i < |chunks| ==> chunks[i] != [] && chunks[i][0] <= 1 }

  function AllTagged(chunks: seq<Chunk>, channel: Byte): (r: seq<Chunk>)
    requires Untagged(chunks) && channel <= MAX_CHANNEL
    ensures |r| == |chunks|
    ensures forall i :: 0 <= i < |r| ==> r[i] == Tagged(chunks[i], channel)
  {
    if chunks == [] then [] else [Tagged(chunks[0], channel)] + AllTagged(chunks[1..], channel)
  }

  lemma {:induction false} CutUntagged(d: seq<Byte>)
    requires d != []
    ensures Untagged(Cut(d))
  {
    if |d| > MAX_CHUNK {
      CutUntagged(d[MAX_CHUNK..]);
    }
  }

  function FrameOn(d: seq<Byte>, channel: Byte): seq<Chunk>
    requires channel <= MAX_CHANNEL
  {
    assert Untagged(Frame(d)) by { if d != [] { CutUntagged(d); } }
    AllTagged(Frame(d), channel)
  }

  method FrameDatagram(d: seq<Byte>) returns (chunks: seq<Chunk>)
    ensures chunks == Frame(d)
  {
    if d == [] {
      return [[1]];
    }
    chunks := [];
    var offset := 0;
    while offset < |d|
      invariant offset <= |d|
      invariant Cut(d) == if offset < |d| then chunks + Cut(d[offset..]) else chunks
    {
      var end := if offset + MAX_CHUNK < |d| then offset + MAX_CHUNK else |d|;
      var isFinal := end == |d|;
      assert d[offset..][..end - offset] == d[offset..end];
      var chunk := [if isFinal then 1 else 0] + d[offset..end];
      if isFinal {
        assert d[offset..] == d[offset..end];
      } else {
        assert d[offset..][MAX_CHUNK..] == d[end..];
        assert chunks + ([chunk] + Cut(d[end..])) == chunks + [chunk] + Cut(d[end..]);
      }
      chunks := chunks + [chunk];
      offset := end;
    }
  }

  datatype Framed = Framed(chunks: seq<Chunk>) | ChannelTooLarge(channel: Byte)

  /** The header bytes are edited one by one in the chunks framed for channel 0. */
  method FrameOnChannel(d: seq<Byte>, channel: Byte) returns (r: Framed)
    ensures r == if channel > MAX_CHANNEL then ChannelTooLarge(channel) else Framed(FrameOn(d, channel))
  {
    if channel > MAX_CHANNEL {
      return ChannelTooLarge(channel);
    }
    var chunks := FrameDatagram(d);
    ghost var framed := chunks;
    if d != [] {
      CutUntagged(d);
    }
    var i := 0;
    while i < |chunks|
      invariant i <= |framed| && TaggedUpTo(framed, chunks, channel, i)
    {
      var edited: Chunk := [chunks[i][0] + 2 * channel] + chunks[i][1..];
      assert edited == Tagged(framed[i], channel);
      chunks := chunks[i := edited];
      i := i + 1;
    }
    AllOfThem(framed, chunks, channel);
    r := Framed(chunks);
  }

  predicate TaggedUpTo(framed: seq<Chunk>, chunks: seq<Chunk>, channel: Byte, i: nat)
    requires Untagged(framed) && channel <= MAX_CHANNEL
  {
    |chunks| == |framed|
    && forall k :: 0 <= k < |chunks| ==> chunks[k] == if k < i then Tagged(framed[k], channel) else framed[k]
  }

  lemma {:induction false} AllOfThem(framed: seq<Chunk>, chunks: seq<Chunk>, channel: Byte)
    requires Untagged(framed) && channel <= MAX_CHANNEL && TaggedUpTo(framed, chunks, channel, |framed|)
    ensures chunks == AllTagged(framed, channel)
  {
    var r := AllTagged(framed, channel);
    forall k | 0 <= k < |chunks| ensures chunks[k] == r[k] {}
  }

  // ---------------------------------------------------------------- putting together

  /** What a buffer holds after a chunk, and the datagram it completes. */
  function Fed(buf: seq<Byte>, chunk: Chunk): (seq<Byte>, Option<seq<Byte>>) {
    if chunk == [] then (buf, None)
    else
      var all := buf + chunk[1..];
      if !IsFinal(chunk[0]) then (all, None)
      else ([], if |all| > MAX_DATAGRAM then None else Some(all))
  }

  class Reassembler {
    var buf: seq<Byte>

    constructor ()
      ensures buf == []
    {
      buf := [];
    }

    method Push(chunk: Chunk) returns (complete: Option<seq<Byte>>)
      modifies this
      ensures (buf, complete) == Fed(old(buf), chunk)
    {
      if chunk == [] {
        return None;
      }
      buf := buf + chunk[1..];
      if !IsFinal(chunk[0]) {
        return None;
      }
      var all := buf;
      buf := [];
      if |all| > MAX_DATAGRAM {
        return None;
      }
      complete := Some(all);
    }
  }

  type Buffers = map<Byte, seq<Byte>>

  function BufferOf(buffers: Buffers, channel: Byte): seq<Byte> {
    if channel in buffers then buffers[channel] else []
  }

  datatype Arrival = Arrival(channel: Byte, datagram: seq<Byte>)

  function FedOn(buffers: Buffers, chunk: Chunk): (Buffers, Option<Arrival>) {
    if chunk == [] then (buffers, None)
    else
      var channel := ChannelOf(chunk[0]);
      var (buf, complete) := Fed(BufferOf(buffers, channel), chunk);
      (buffers[channel := buf], if complete.Some? then Some(Arrival(channel, complete.value)) else None)
  }

  class ChannelReassembler {
    var buffers: Buffers

    constructor ()
      ensures buffers == map[]
    {
      buffers := map[];
    }

    method Push(chunk: Chunk) returns (complete: Option<Arrival>)
      modifies this
      ensures (buffers, complete) == FedOn(old(buffers), chunk)
    {
      if chunk == [] {
        return None;
      }
      var header := chunk[0];
      var channel := ChannelOf(header);
      if channel !in buffers {
        buffers := buffers[channel := []];
      }
      var all := buffers[channel] + chunk[1..];
      if !IsFinal(header) {
        buffers := buffers[channel := all];
        assert buffers == old(buffers)[channel := all];
        return None;
      }
      buffers := buffers[channel := []];
      assert buffers == old(buffers)[channel := []];
      if |all| > MAX_DATAGRAM {
        return None;
      }
      complete := Some(Arrival(channel, all));
    }
  }

  // ---------------------------------------------------------------- over a stream of chunks

  function Then<T>(first: Option<T>, later: seq<T>): seq<T> { if first.Some? then [first.value] + later else later }

  /** The datagrams one reassembler hands back, and what it still holds. */
  function Feed(buf: seq<Byte>, chunks: seq<Chunk>): (seq<Byte>, seq<seq<Byte>>)
    decreases |chunks|
  {
    if chunks == [] then (buf, [])
    else
      var (next, complete) := Fed(buf, chunks[0]);
      var (last, later) := Feed(next, chunks[1..]);
      (last, Then(complete, later))
  }

  function FeedOn(buffers: Buffers, chunks: seq<Chunk>): (Buffers, seq<Arrival>)
    decreases |chunks|
  {
    if chunks == [] then (buffers, [])
    else
      var (next, complete) := FedOn(buffers, chunks[0]);
      var (last, later) := FeedOn(next, chunks[1..]);
      (last, Then(complete, later))
  }

  /** The chunks of a stream that are on one channel. */
  function Only(chunks: seq<Chunk>, channel: Byte): seq<Chunk> {
    if chunks == [] then []
    else if chunks[0] != [] && ChannelOf(chunks[0][0]) == channel then [chunks[0]] + Only(chunks[1..], channel)
    else Only(chunks[1..], channel)
  }

  /** The datagrams that arrived on one channel. */
  function On(arrivals: seq<Arrival>, channel: Byte): seq<seq<Byte>> {
    if arrivals == [] then []
    else if arrivals[0].channel == channel then [arrivals[0].datagram] + On(arrivals[1..], channel)
    else On(arrivals[1..], channel)
  }

  lemma {:induction false} OnThen(first: Option<Arrival>, later: seq<Arrival>, channel: Byte)
    ensures On(Then(first, later), channel)
         == if first.Some? && first.value.channel == channel then [first.value.datagram] + On(later, channel)
            else On(later, channel)
  {
    if first.Some? {
      assert Then(first, later)[1..] == later;
    }
  }

  /** One reassembler with a buffer a channel is eight reassemblers, each fed its own chunks. */
  lemma {:induction false} EightReassemblers(buffers: Buffers, chunks: seq<Chunk>, channel: Byte)
    ensures var (last, arrivals) := FeedOn(buffers, chunks);
      (BufferOf(last, channel), On(arrivals, channel)) == Feed(BufferOf(buffers, channel), Only(chunks, channel))
    decreases |chunks|
  {
    if chunks != [] {
      var (next, complete) := FedOn(buffers, chunks[0]);
      var (last, later) := FeedOn(next, chunks[1..]);
      EightReassemblers(next, chunks[1..], channel);
      OnThen(complete, later, channel);
      OneChunk(chunks, channel);
    }
  }

  lemma {:induction false} OneChunk(chunks: seq<Chunk>, channel: Byte)
    requires chunks != []
    ensures var mine := chunks[0] != [] && ChannelOf(chunks[0][0]) == channel;
      && (mine ==> Only(chunks, channel) != [] && Only(chunks, channel)[0] == chunks[0]
                   && Only(chunks, channel)[1..] == Only(chunks[1..], channel))
      && (!mine ==> Only(chunks, channel) == Only(chunks[1..], channel))
  {
  }

  // ---------------------------------------------------------------- what was sent is what arrives

  predicate Fits(d: seq<Byte>) { |d| <= MAX_DATAGRAM }

  lemma {:induction false} FeedConcat(buf: seq<Byte>, a: seq<Chunk>, b: seq<Chunk>)
    ensures var (mid, first) := Feed(buf, a);
      var (last, later) := Feed(mid, b);
      Feed(buf, a + b) == (last, first + later)
    decreases |a|
  {
    if a == [] {
      assert a + b == b;
      var later := Feed(buf, b).1;
      assert [] + later == later;
    } else {
      assert (a + b)[0] == a[0] && (a + b)[1..] == a[1..] + b;
      var (next, complete) := Fed(buf, a[0]);
      FeedConcat(next, a[1..], b);
      var (mid, first) := Feed(next, a[1..]);
      ThenConcat(complete, first, Feed(mid, b).1);
    }
  }

  lemma ThenConcat<T>(complete: Option<T>, first: seq<T>, later: seq<T>)
    ensures Then(complete, first + later) == Then(complete, first) + later
  {
    if complete.Some? {
      assert [complete.value] + (first + later) == [complete.value] + first + later;
    }
  }

  lemma TagRead(final: Byte, channel: Byte)
    requires final <= 1 && channel <= MAX_CHANNEL
    ensures IsFinal(final + 2 * channel) == (final == 1) && ChannelOf(final + 2 * channel) == channel
  {
  }

  lemma {:induction false} LastChunk(buf: seq<Byte>, chunk: Chunk)
    requires chunk != [] && IsFinal(chunk[0])
    ensures Feed(buf, [chunk]) == ([], if |buf + chunk[1..]| > MAX_DATAGRAM then [] else [buf + chunk[1..]])
  {
    assert [chunk][1..] == [] && Feed([], []) == ([], []);
    var all := buf + chunk[1..];
    assert [all] + [] == [all];
  }

  /** The chunks of one datagram, on any channel, into a buffer: the datagram after what it held. */
  lemma {:induction false} CutArrives(buf: seq<Byte>, d: seq<Byte>, channel: Byte)
    requires d != [] && channel <= MAX_CHANNEL && Untagged(Cut(d))
    ensures Feed(buf, AllTagged(Cut(d), channel)) == ([], if |buf + d| > MAX_DATAGRAM then [] else [buf + d])
    decreases |d|
  {
    var chunks := AllTagged(Cut(d), channel);
    if |d| <= MAX_CHUNK {
      TagRead(1, channel);
      assert chunks == [Tagged([1] + d, channel)] && chunks[0][1..] == d;
      LastChunk(buf, chunks[0]);
    } else {
      TagRead(0, channel);
      var head, rest := d[..MAX_CHUNK], d[MAX_CHUNK..];
      CutUntagged(rest);
      assert chunks[0][1..] == head;
      assert Cut(d) == [[0] + head] + Cut(rest);
      assert Cut(d)[1..] == Cut(rest) && chunks[1..] == AllTagged(Cut(rest), channel);
      assert chunks[0] == [2 * channel] + head;
      assert Fed(buf, chunks[0]) == (buf + head, None);
      assert buf + head + rest == buf + d;
      CutArrives(buf + head, rest, channel);
    }
  }

  lemma {:induction false} DatagramArrives(d: seq<Byte>, channel: Byte)
    requires channel <= MAX_CHANNEL
    ensures Feed([], FrameOn(d, channel)) == ([], if Fits(d) then [d] else [])
  {
    if d == [] {
      TagRead(1, channel);
      var chunks := FrameOn(d, channel);
      assert chunks == [Tagged([1], channel)] && chunks[0][1..] == [];
      LastChunk([], chunks[0]);
    } else {
      CutUntagged(d);
      CutArrives([], d, channel);
      assert [] + d == d;
    }
  }

  function FramedAll(ds: seq<seq<Byte>>, channel: Byte): seq<Chunk>
    requires channel <= MAX_CHANNEL
  {
    if ds == [] then [] else FrameOn(ds[0], channel) + FramedAll(ds[1..], channel)
  }

  function Fitting(ds: seq<seq<Byte>>): seq<seq<Byte>> {
    if ds == [] then [] else if Fits(ds[0]) then [ds[0]] + Fitting(ds[1..]) else Fitting(ds[1..])
  }

  lemma {:induction false} StreamArrives(ds: seq<seq<Byte>>, channel: Byte)
    requires channel <= MAX_CHANNEL
    ensures Feed([], FramedAll(ds, channel)) == ([], Fitting(ds))
  {
    if ds != [] {
      DatagramArrives(ds[0], channel);
      StreamArrives(ds[1..], channel);
      FeedConcat([], FrameOn(ds[0], channel), FramedAll(ds[1..], channel));
      assert [] + Fitting(ds[1..]) == Fitting(ds[1..]);
    }
  }

  /**
   Channels never braid: let `chunks` be any interleaving of streams, one a channel.  What arrives
   on each channel is that channel's datagrams, those of at most 65535 bytes, whole and in order.
   */
  lemma {:induction false} ChannelsNeverBraid(chunks: seq<Chunk>, streams: seq<seq<seq<Byte>>>, channel: Byte)
    requires |streams| == 8 && channel <= MAX_CHANNEL
    requires Only(chunks, channel) == FramedAll(streams[channel], channel)
    ensures var (last, arrivals) := FeedOn(map[], chunks);
      On(arrivals, channel) == Fitting(streams[channel]) && BufferOf(last, channel) == []
  {
    EightReassemblers(map[], chunks, channel);
    StreamArrives(streams[channel], channel);
  }

  // ---------------------------------------------------------------- the two generations

  /** On channel 0 the second generation sends what the first does. */
  lemma {:induction false} ChannelZeroIsGenerationOne(d: seq<Byte>)
    ensures FrameOn(d, 0) == Frame(d)
  {
    if d != [] {
      CutUntagged(d);
    }
    var chunks := Frame(d);
    forall i | 0 <= i < |chunks| ensures Tagged(chunks[i], 0) == chunks[i] {
    }
  }

  /** And takes what a first-generation sender sends as channel 0, datagram for datagram. */
  lemma {:induction false} GenerationOneIsChannelZero(chunks: seq<Chunk>)
    requires forall i :: 0 <= i < |chunks| && chunks[i] != [] ==> ChannelOf(chunks[i][0]) == 0
    ensures On(FeedOn(map[], chunks).1, 0) == Feed([], chunks).1
  {
    EightReassemblers(map[], chunks, 0);
    EmptiesIgnored([], chunks);
  }

  lemma {:induction false} EmptiesIgnored(buf: seq<Byte>, chunks: seq<Chunk>)
    requires forall i :: 0 <= i < |chunks| && chunks[i] != [] ==> ChannelOf(chunks[i][0]) == 0
    ensures Feed(buf, Only(chunks, 0)) == Feed(buf, chunks)
    decreases |chunks|
  {
    if chunks != [] {
      OneChunk(chunks, 0);
      EmptiesIgnored(Fed(buf, chunks[0]).0, chunks[1..]);
    }
  }

  /**
   Why a nonzero channel is only ever sent to a peer that announced generation two: the first
   hands back a datagram of one channel spliced into another's.
   */
  lemma GenerationOneBraids(a: Chunk, b: Chunk, c: Chunk)
    requires a != [] && b != [] && c != [] && |a| + |b| + |c| <= MAX_DATAGRAM
    requires ChannelOf(a[0]) == ChannelOf(c[0]) == 1 && ChannelOf(b[0]) == 0
    requires !IsFinal(a[0]) && IsFinal(b[0]) && IsFinal(c[0])
    ensures On(FeedOn(map[], [a, b, c]).1, 0) == [b[1..]] && On(FeedOn(map[], [a, b, c]).1, 1) == [a[1..] + c[1..]]
    ensures Feed([], [a, b, c]).1 == [a[1..] + b[1..], c[1..]]
  {
    ByChannel(a, b, c);
    EightReassemblers(map[], [a, b, c], 0);
    EightReassemblers(map[], [a, b, c], 1);
    LastChunk([], b);
    LastChunk([], c);
    assert [] + b[1..] == b[1..] && [] + c[1..] == c[1..] && [] + a[1..] == a[1..];
    TwoChunks([], a, b, [c]);
    TwoChunks([], a, c, []);
    assert [a, b] + [c] == [a, b, c] && [a, c] + [] == [a, c];
  }

  lemma ByChannel(a: Chunk, b: Chunk, c: Chunk)
    requires a != [] && b != [] && c != []
    requires ChannelOf(a[0]) == ChannelOf(c[0]) == 1 && ChannelOf(b[0]) == 0
    ensures Only([a, b, c], 0) == [b] && Only([a, b, c], 1) == [a, c]
  {
    var chunks := [a, b, c];
    assert chunks[1..] == [b, c] && chunks[1..][1..] == [c] && [c][1..] == [];
    assert Only([c], 0) == [] && Only([c], 1) == [c];
    assert Only([b, c], 0) == [b] && Only([b, c], 1) == [c];
  }

  lemma {:induction false} TwoChunks(buf: seq<Byte>, a: Chunk, b: Chunk, rest: seq<Chunk>)
    requires a != [] && b != [] && !IsFinal(a[0]) && IsFinal(b[0])
    ensures var all := buf + a[1..] + b[1..];
      Feed(buf, [a, b] + rest) == (Feed([], rest).0, if Fits(all) then [all] + Feed([], rest).1 else Feed([], rest).1)
  {
    var chunks := [a, b] + rest;
    assert chunks[1..] == [b] + rest && chunks[1..][1..] == rest;
  }
}
