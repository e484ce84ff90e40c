/**
 A first-generation peer sent channels (`framing.rs`): it knows of none, so it hands back what was
 sent exactly when the sender never starts on one datagram inside another.
 */
module Generations {
  import opened Wire
  import opened Framing

  /** Read off the headers alone: no chunk inside another channel's datagram; `current` is the one begun. */
  predicate InTurn(chunks: seq<Chunk>, current: Option<Byte>) {
    if chunks == [] then true
    else if chunks[0] == [] then InTurn(chunks[1..], current)
    else
      var channel := ChannelOf(chunks[0][0]);
      && (current.Some? ==> current.value == channel)
      && InTurn(chunks[1..], if IsFinal(chunks[0][0]) then None else Some(channel))
  }

  function Datagrams(arrivals: seq<Arrival>): (r: seq<seq<Byte>>)
    ensures |r| == |arrivals|
  {
    if arrivals == [] then [] else [arrivals[0].datagram] + Datagrams(arrivals[1..])
  }

  /** The first generation holds what the second holds for the channel begun, and nothing else is held. */
  predicate InStep(buffers: Buffers, buf: seq<Byte>, current: Option<Byte>) {
    && (forall c :: c in buffers && current != Some(c) ==> buffers[c] == [])
    && buf == if current.Some? then BufferOf(buffers, current.value) else []
  }

  /** One chunk, in turn: both hold the same after it, and both hand back the same. */
  lemma StepInTurn(buffers: Buffers, buf: seq<Byte>, current: Option<Byte>, chunk: Chunk)
    requires InStep(buffers, buf, current) && chunk != []
    requires current.Some? ==> current.value == ChannelOf(chunk[0])
    ensures var channel := ChannelOf(chunk[0]);
      var (after, arrival) := FedOn(buffers, chunk);
      var (held, complete) := Fed(buf, chunk);
      && InStep(after, held, if IsFinal(chunk[0]) then None else Some(channel))
      && (complete.Some? <==> arrival.Some?) && (complete.Some? ==> arrival.value.datagram == complete.value)
  {
    assert buf == BufferOf(buffers, ChannelOf(chunk[0]));
  }

  /** Whatever the chunks: sent in turn, the first generation hands back what the second does. */
  lemma {:induction false} InTurnArrives(buffers: Buffers, buf: seq<Byte>, current: Option<Byte>, chunks: seq<Chunk>)
    requires InStep(buffers, buf, current) && InTurn(chunks, current)
    ensures Feed(buf, chunks).1 == Datagrams(FeedOn(buffers, chunks).1)
    decreases |chunks|
  {
    if chunks != [] {
      var (after, arrival) := FedOn(buffers, chunks[0]);
      var (held, complete) := Fed(buf, chunks[0]);
      if chunks[0] == [] {
        InTurnArrives(buffers, buf, current, chunks[1..]);
      } else {
        StepInTurn(buffers, buf, current, chunks[0]);
        InTurnArrives(after, held, if IsFinal(chunks[0][0]) then None else Some(ChannelOf(chunks[0][0])),
                      chunks[1..]);
      }
      DatagramsThen(arrival, FeedOn(after, chunks[1..]).1);
    }
  }

  lemma {:induction false} DatagramsThen(first: Option<Arrival>, later: seq<Arrival>)
    ensures Datagrams(Then(first, later))
         == Then(if first.Some? then Some(first.value.datagram) else None, Datagrams(later))
  {
    if first.Some? {
      assert Then(first, later)[1..] == later;
    }
  }

  // ---------------------------------------------------------------- counting what comes back

  predicate Ends(chunk: Chunk) { chunk != [] && IsFinal(chunk[0]) }

  function Finals(chunks: seq<Chunk>): nat {
    if chunks == [] then 0 else (if Ends(chunks[0]) then 1 else 0) + Finals(chunks[1..])
  }

  /** Every datagram that completes is of a size that is handed back. */
  predicate AllFit(buffers: Buffers, chunks: seq<Chunk>)
    decreases |chunks|
  {
    chunks != [] ==>
      && (Ends(chunks[0]) ==> Fits(BufferOf(buffers, ChannelOf(chunks[0][0])) + chunks[0][1..]))
      && AllFit(FedOn(buffers, chunks[0]).0, chunks[1..])
  }

  lemma {:induction false} AtMostFinals(buf: seq<Byte>, chunks: seq<Chunk>)
    ensures |Feed(buf, chunks).1| <= Finals(chunks)
    decreases |chunks|
  {
    if chunks != [] {
      AtMostFinals(Fed(buf, chunks[0]).0, chunks[1..]);
    }
  }

  lemma {:induction false} AllFinals(buffers: Buffers, chunks: seq<Chunk>)
    requires AllFit(buffers, chunks)
    ensures |FeedOn(buffers, chunks).1| == Finals(chunks)
    decreases |chunks|
  {
    if chunks != [] {
      AllFinals(FedOn(buffers, chunks[0]).0, chunks[1..]);
    }
  }

  // ---------------------------------------------------------------- once out of turn

  /** The first generation holds more than the second does for any one channel. */
  predicate HoldsMore(buffers: Buffers, buf: seq<Byte>) {
    buf != [] && forall c :: c in buffers ==> |buffers[c]| < |buf|
  }

  /** A datagram longer than it was, or none where there was one, and the rest cannot make up for it. */
  lemma LongerOrFewer(longer: seq<Byte>, d: seq<Byte>, ones: seq<seq<Byte>>, twos: seq<seq<Byte>>)
    requires |longer| > |d| && |ones| <= |twos|
    ensures Then(if |longer| > MAX_DATAGRAM then None else Some(longer), ones) != [d] + twos
  {
    if |longer| <= MAX_DATAGRAM {
      assert ([longer] + ones)[0] == longer && ([d] + twos)[0] == d;
    } else {
      assert |ones| < |[d] + twos|;
    }
  }

  /** Holding more, it hands back something else as soon as a datagram ends. */
  lemma {:induction false} HoldingMoreShows(buffers: Buffers, buf: seq<Byte>, chunks: seq<Chunk>)
    requires HoldsMore(buffers, buf) && AllFit(buffers, chunks) && Finals(chunks) > 0
    ensures Feed(buf, chunks).1 != Datagrams(FeedOn(buffers, chunks).1)
    decreases |chunks|
  {
    var chunk := chunks[0];
    if Ends(chunk) {
      LongerDiffers(buffers, buf, chunks);
    } else {
      HoldingMoreShows(FedOn(buffers, chunk).0, Fed(buf, chunk).0, chunks[1..]);
    }
  }

  lemma {:induction false} LongerDiffers(buffers: Buffers, buf: seq<Byte>, chunks: seq<Chunk>)
    requires chunks != [] && Ends(chunks[0]) && AllFit(buffers, chunks)
    requires |BufferOf(buffers, ChannelOf(chunks[0][0]))| < |buf|
    ensures Feed(buf, chunks).1 != Datagrams(FeedOn(buffers, chunks).1)
  {
    var chunk, rest := chunks[0], chunks[1..];
    var (after, arrival) := FedOn(buffers, chunk);
    var d := BufferOf(buffers, ChannelOf(chunk[0])) + chunk[1..];
    AtMostFinals([], rest);
    AllFinals(after, rest);
    DatagramsThen(arrival, FeedOn(after, rest).1);
    LongerOrFewer(buf + chunk[1..], d, Feed([], rest).1, Datagrams(FeedOn(after, rest).1));
  }

  /** Chunks as senders cut them: only a final one may be empty. */
  predicate Solid(chunks: seq<Chunk>) {
    forall i :: 0 <= i < |chunks| && chunks[i] != [] && !IsFinal(chunks[i][0]) ==> |chunks[i]| > 1
  }

  /** Nothing is left unfinished. */
  predicate Finishes(buffers: Buffers, chunks: seq<Chunk>) {
    forall c :: c in FeedOn(buffers, chunks).0 ==> FeedOn(buffers, chunks).0[c] == []
  }

  lemma {:induction false} UnfinishedNeedsFinal(buffers: Buffers, chunks: seq<Chunk>, c: Byte)
    requires Finals(chunks) == 0
    ensures |BufferOf(FeedOn(buffers, chunks).0, c)| >= |BufferOf(buffers, c)|
    decreases |chunks|
  {
    if chunks != [] {
      UnfinishedNeedsFinal(FedOn(buffers, chunks[0]).0, chunks[1..], c);
    }
  }

  lemma {:induction false} SomethingEnds(buffers: Buffers, chunks: seq<Chunk>, c: Byte)
    requires Finishes(buffers, chunks) && BufferOf(buffers, c) != []
    ensures Finals(chunks) > 0
  {
    if Finals(chunks) == 0 {
      UnfinishedNeedsFinal(buffers, chunks, c);
    }
  }

  /** The first chunk out of turn: from there on the two differ. */
  lemma {:induction false} OutOfTurnShows(buffers: Buffers, buf: seq<Byte>, current: Byte, chunks: seq<Chunk>)
    requires InStep(buffers, buf, Some(current)) && buf != [] && AllFit(buffers, chunks) && Solid(chunks)
    requires Finishes(buffers, chunks) && chunks != [] && chunks[0] != [] && ChannelOf(chunks[0][0]) != current
    ensures Feed(buf, chunks).1 != Datagrams(FeedOn(buffers, chunks).1)
  {
    var chunk := chunks[0];
    assert BufferOf(buffers, ChannelOf(chunk[0])) == [];
    if Ends(chunk) {
      LongerDiffers(buffers, buf, chunks);
    } else {
      SomethingEnds(buffers, chunks, current);
      HoldingMoreShows(FedOn(buffers, chunk).0, Fed(buf, chunk).0, chunks[1..]);
    }
  }

  /** From any point both are in step at. */
  lemma {:induction false} ExactlyInTurn(buffers: Buffers, buf: seq<Byte>, current: Option<Byte>, chunks: seq<Chunk>)
    requires InStep(buffers, buf, current) && (current.Some? ==> buf != [])
    requires AllFit(buffers, chunks) && Solid(chunks) && Finishes(buffers, chunks)
    ensures Feed(buf, chunks).1 == Datagrams(FeedOn(buffers, chunks).1) <==> InTurn(chunks, current)
    decreases |chunks|
  {
    if chunks != [] {
      var chunk, rest := chunks[0], chunks[1..];
      SolidRest(chunks);
      FinishesRest(buffers, chunks);
      if chunk == [] {
        ExactlyInTurn(buffers, buf, current, rest);
      } else if current.Some? && current.value != ChannelOf(chunk[0]) {
        OutOfTurnShows(buffers, buf, current.value, chunks);
      } else {
        StepInTurn(buffers, buf, current, chunk);
        var (after, arrival) := FedOn(buffers, chunk);
        var (held, complete) := Fed(buf, chunk);
        assert !IsFinal(chunk[0]) ==> held != [];
        ExactlyInTurn(after, held, if IsFinal(chunk[0]) then None else Some(ChannelOf(chunk[0])), rest);
        DatagramsThen(arrival, FeedOn(after, rest).1);
        ThenSame(complete, Feed(held, rest).1, Datagrams(FeedOn(after, rest).1));
      }
    }
  }

  lemma FinishesRest(buffers: Buffers, chunks: seq<Chunk>)
    requires Finishes(buffers, chunks) && chunks != []
    ensures Finishes(FedOn(buffers, chunks[0]).0, chunks[1..])
  {
    assert FeedOn(FedOn(buffers, chunks[0]).0, chunks[1..]).0 == FeedOn(buffers, chunks).0;
  }

  lemma SolidRest(chunks: seq<Chunk>)
    requires Solid(chunks) && chunks != []
    ensures Solid(chunks[1..])
    ensures chunks[0] != [] && !IsFinal(chunks[0][0]) ==> |chunks[0]| > 1
  {
    forall i | 0 <= i < |chunks[1..]| ensures chunks[1..][i] == chunks[i + 1] {}
  }

  lemma ThenSame<T>(first: Option<T>, a: seq<T>, b: seq<T>)
    ensures Then(first, a) == Then(first, b) <==> a == b
  {
    if first.Some? && Then(first, a) == Then(first, b) {
      assert a == ([first.value] + a)[1..] == ([first.value] + b)[1..] == b;
    }
  }

  // ---------------------------------------------------------------- framed streams

  /** An interleaving of framed streams, one a channel, each sent to its end. */
  predicate Interleaves(chunks: seq<Chunk>, streams: seq<seq<seq<Byte>>>) {
    |streams| == 8 && forall c: Byte :: c <= MAX_CHANNEL ==> Only(chunks, c) == FramedAll(streams[c], c)
  }

  predicate AllFitting(ds: seq<seq<Byte>>) { forall i :: 0 <= i < |ds| ==> Fits(ds[i]) }

  /** One channel's datagrams, as they complete in one buffer, fit. */
  predicate FitsAlone(buf: seq<Byte>, chunks: seq<Chunk>)
    decreases |chunks|
  {
    chunks != [] ==>
      (Ends(chunks[0]) ==> Fits(buf + chunks[0][1..])) && FitsAlone(Fed(buf, chunks[0]).0, chunks[1..])
  }

  lemma {:induction false} FitsConcat(buf: seq<Byte>, a: seq<Chunk>, b: seq<Chunk>)
    requires FitsAlone(buf, a) && FitsAlone(Feed(buf, a).0, b)
    ensures FitsAlone(buf, a + b)
    decreases |a|
  {
    if a == [] {
      assert a + b == b;
    } else {
      assert (a + b)[0] == a[0] && (a + b)[1..] == a[1..] + b;
      FitsConcat(Fed(buf, a[0]).0, a[1..], b);
    }
  }

  lemma {:induction false} CutFits(buf: seq<Byte>, d: seq<Byte>, channel: Byte)
    requires d != [] && channel <= MAX_CHANNEL && Untagged(Cut(d)) && Fits(buf + d)
    ensures FitsAlone(buf, AllTagged(Cut(d), channel)) && Solid(AllTagged(Cut(d), channel))
    decreases |d|
  {
    var chunks := AllTagged(Cut(d), channel);
    if |d| <= MAX_CHUNK {
      TagRead(1, channel);
      assert chunks == [Tagged([1] + d, channel)] && chunks[0][1..] == d && chunks[1..] == [];
    } else {
      TagRead(0, channel);
      var head, rest := d[..MAX_CHUNK], d[MAX_CHUNK..];
      CutUntagged(rest);
      assert Cut(d)[1..] == Cut(rest) && chunks[1..] == AllTagged(Cut(rest), channel);
      assert chunks[0] == [2 * channel] + head;
      assert buf + head + rest == buf + d;
      CutFits(buf + head, rest, channel);
      SolidOnto(chunks[0], chunks[1..]);
      assert chunks == [chunks[0]] + chunks[1..];
    }
  }

  lemma SolidOnto(chunk: Chunk, rest: seq<Chunk>)
    requires Solid(rest) && |chunk| > 1
    ensures Solid([chunk] + rest)
  {
  }

  lemma SolidConcat(a: seq<Chunk>, b: seq<Chunk>)
    requires Solid(a) && Solid(b)
    ensures Solid(a + b)
  {
  }

  lemma {:induction false} StreamFits(ds: seq<seq<Byte>>, channel: Byte)
    requires channel <= MAX_CHANNEL && AllFitting(ds)
    ensures FitsAlone([], FramedAll(ds, channel)) && Solid(FramedAll(ds, channel))
  {
    if ds != [] {
      var d := ds[0];
      OneFits(d, channel);
      DatagramArrives(d, channel);
      StreamFits(ds[1..], channel);
      FitsConcat([], FrameOn(d, channel), FramedAll(ds[1..], channel));
      SolidConcat(FrameOn(d, channel), FramedAll(ds[1..], channel));
    }
  }

  lemma OneFits(d: seq<Byte>, channel: Byte)
    requires channel <= MAX_CHANNEL && Fits(d)
    ensures FitsAlone([], FrameOn(d, channel)) && Solid(FrameOn(d, channel))
  {
    if d == [] {
      TagRead(1, channel);
      var chunks := FrameOn(d, channel);
      assert chunks == [Tagged([1], channel)] && chunks[0][1..] == [] && chunks[1..] == [];
    } else {
      CutUntagged(d);
      assert [] + d == d;
      CutFits([], d, channel);
    }
  }

  /** Channel by channel. */
  lemma {:induction false} FitsByChannel(buffers: Buffers, chunks: seq<Chunk>)
    requires forall c: Byte :: c <= MAX_CHANNEL ==> FitsAlone(BufferOf(buffers, c), Only(chunks, c))
    ensures AllFit(buffers, chunks)
    decreases |chunks|
  {
    if chunks != [] {
      var after := FedOn(buffers, chunks[0]).0;
      forall c: Byte | c <= MAX_CHANNEL ensures FitsAlone(BufferOf(after, c), Only(chunks[1..], c)) {
        OneChunk(chunks, c);
      }
      if chunks[0] != [] {
        OneChunk(chunks, ChannelOf(chunks[0][0]));
      }
      FitsByChannel(after, chunks[1..]);
    }
  }

  lemma {:induction false} InOnly(chunks: seq<Chunk>, i: nat)
    requires i < |chunks| && chunks[i] != []
    ensures chunks[i] in Only(chunks, ChannelOf(chunks[i][0]))
  {
    if i > 0 {
      InOnly(chunks[1..], i - 1);
    }
  }

  lemma StreamsAreSolid(chunks: seq<Chunk>, streams: seq<seq<seq<Byte>>>)
    requires Interleaves(chunks, streams) && forall c :: 0 <= c < 8 ==> AllFitting(streams[c])
    ensures Solid(chunks)
  {
    forall i | 0 <= i < |chunks| && chunks[i] != [] && !IsFinal(chunks[i][0]) ensures |chunks[i]| > 1 {
      var c := ChannelOf(chunks[i][0]);
      InOnly(chunks, i);
      StreamFits(streams[c], c);
    }
  }

  lemma {:induction false} OnlyChannels(buffers: Buffers, chunks: seq<Chunk>, c: Byte)
    requires c in FeedOn(buffers, chunks).0
    ensures c in buffers || c <= MAX_CHANNEL
    decreases |chunks|
  {
    if chunks != [] {
      OnlyChannels(FedOn(buffers, chunks[0]).0, chunks[1..], c);
    }
  }

  /**
   The two generations side by side: for any interleaving of streams of datagrams UDP can carry, a
   first-generation peer hands back the datagrams sent, in the order they are completed, exactly
   if no chunk comes inside another channel's datagram; on which channels does not matter.
   */
  lemma {:induction false} GenerationOneExact(chunks: seq<Chunk>, streams: seq<seq<seq<Byte>>>)
    requires Interleaves(chunks, streams) && forall c :: 0 <= c < 8 ==> AllFitting(streams[c])
    ensures Feed([], chunks).1 == Datagrams(FeedOn(map[], chunks).1) <==> InTurn(chunks, None)
  {
    forall c: Byte | c <= MAX_CHANNEL ensures FitsAlone(BufferOf(map[], c), Only(chunks, c)) {
      StreamFits(streams[c], c);
    }
    FitsByChannel(map[], chunks);
    StreamsAreSolid(chunks, streams);
    forall c | c in FeedOn(map[], chunks).0 ensures FeedOn(map[], chunks).0[c] == [] {
      OnlyChannels(map[], chunks, c);
      ChannelsNeverBraid(chunks, streams, c);
    }
    ExactlyInTurn(map[], [], None, chunks);
  }

  /**
   Past the size UDP can carry, where both generations drop what completes, chunks out of turn may
   go unseen: what is dropped here is the datagram begun first, and there the two run together.
   */
  lemma {:induction false} OversizeHides(a: Chunk, b: Chunk, c: Chunk)
    requires |a| > MAX_DATAGRAM + 1 && |b| > 0 && |c| > 0 && b[1..] == c[1..] && Fits(b[1..])
    requires ChannelOf(a[0]) == ChannelOf(c[0]) == 1 && ChannelOf(b[0]) == 0
    requires !IsFinal(a[0]) && IsFinal(b[0]) && IsFinal(c[0])
    ensures !InTurn([a, b, c], None) && Feed([], [a, b, c]).1 == Datagrams(FeedOn(map[], [a, b, c]).1) == [b[1..]]
  {
    assert [a, b, c][1..] == [b, c] && [b, c][1..] == [c] && [c][1..] == [];
    assert [] + b[1..] == b[1..] && [] + c[1..] == c[1..] && [] + a[1..] == a[1..];
    LastChunk([], c);
    TwoChunks([], a, b, [c]);
    assert [a, b] + [c] == [a, b, c];
    OversizeDropped(a, b, c);
  }

  lemma OversizeDropped(a: Chunk, b: Chunk, c: Chunk)
    requires |a| > MAX_DATAGRAM + 1 && |b| > 0 && |c| > 0 && Fits(b[1..])
    requires ChannelOf(a[0]) == ChannelOf(c[0]) == 1 && ChannelOf(b[0]) == 0
    requires !IsFinal(a[0]) && IsFinal(b[0]) && IsFinal(c[0])
    ensures FeedOn(map[], [a, b, c]).1 == [Arrival(0, b[1..])]
  {
    assert [a, b, c][1..] == [b, c] && [b, c][1..] == [c] && [c][1..] == [];
    assert [] + b[1..] == b[1..] && [] + a[1..] == a[1..];
    var one := FedOn(map[], a).0;
    var two := FedOn(one, b).0;
    assert BufferOf(one, 1) == a[1..] && BufferOf(one, 0) == [] && BufferOf(two, 1) == a[1..];
    assert FedOn(one, b).1 == Some(Arrival(0, b[1..])) && FedOn(two, c).1 == None;
    assert FeedOn(FedOn(two, c).0, []).1 == [];
    assert FeedOn(two, [c]).1 == [];
    assert FeedOn(one, [b, c]).1 == [Arrival(0, b[1..])] + [];
  }
}
