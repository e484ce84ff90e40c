/**
 A pack repository read over the mesh, a chunk a request (`repo_mesh.rs`).  The seed's folder is a
 map from names to bytes; which names it may serve is a parameter; the link to it is one that may
 fail to bring an answer.
 */
module Fetch {
  import opened Wire
  import opened Text
  import Messages

  const CHUNK := 1400

  // ---------------------------------------------------------------- the seed

  /** The name's length in one byte, whatever it is, and the offset in four. */
  function Request(name: Text, offset: U32): seq<Byte> { [|name| % 256] + (name + Messages.Bytes32(offset)) }

  datatype Asked = Asked(name: Text, offset: U32)

  function Parse(body: seq<Byte>): Option<Asked> {
    if body == [] || |body| < 1 + body[0] as int + 4 || !IsUtf8(body[1..1 + body[0] as int]) then None
    else
      var n := body[0] as int;
      Some(Asked(body[1..1 + n], Messages.Word32(body[1 + n..1 + n + 4])))
  }

  function Answer(dir: map<Text, seq<Byte>>, servable: Text -> bool, body: seq<Byte>): seq<Byte> {
    match Parse(body)
    case None => [2]
    case Some(asked) =>
      if !servable(asked.name) then [2]
      else if asked.name !in dir then [1]
      else [0] + (Messages.Bytes32(|dir[asked.name]| % 0x1_0000_0000) + ChunkOf(dir[asked.name], asked.offset))
  }

  /** The chunk of a file at an offset: empty at its end and past it. */
  function ChunkOf(file: seq<Byte>, offset: nat): seq<Byte> {
    var end := if offset + CHUNK < |file| then offset + CHUNK else |file|;
    if offset < end then file[offset..end] else []
  }

  // ---------------------------------------------------------------- the reader

  /** What becomes of a request: there is no link to send it on, no answer to it, or an answer. */
  datatype Reply = NoLink | Lost | Came(answer: seq<Byte>)

  /** What becomes of the `turn`-th. */
  type Answers = (nat, seq<Byte>) -> Reply

  datatype Fetched = Got(file: seq<Byte>) | Absent | Failed

  datatype Turn = Done(result: Fetched) | Again(out: seq<Byte>)

  /** What one answer does. */
  function Take(out: seq<Byte>, reply: seq<Byte>, max: nat): (t: Turn)
    ensures t.Again? ==> |out| < |t.out| < max
    ensures t.Done? && t.result.Got? ==> |t.result.file| <= max
  {
    if reply == [] then Done(Failed)
    else if reply[0] == 1 then Done(Absent)
    else if reply[0] != 0 || |reply| < 5 then Done(Failed)
    else
      var total, chunk := Messages.Word32(reply[1..5]), reply[5..];
      if total > max || (chunk == [] && |out| < total) then Done(Failed)
      else if |out + chunk| >= total then Done(Got((out + chunk)[..total]))
      else Again(out + chunk)
  }

  /** The result, and how many requests were made. */
  function Fetch(answers: Answers, name: Text, max: nat, out: seq<Byte>, retried: bool, turn: nat): (Fetched, nat)
    decreases max - |out|, if retried then 0 else 1
  {
    match answers(turn, Request(name, |out| % 0x1_0000_0000))
    case NoLink => (Failed, turn + 1)
    case Lost => if retried then (Failed, turn + 1) else Fetch(answers, name, max, out, true, turn + 1)
    case Came(reply) =>
      match Take(out, reply, max)
      case Done(result) => (result, turn + 1)
      case Again(more) => Fetch(answers, name, max, more, retried, turn + 1)
  }

  method FetchOverMesh(answers: Answers, name: Text, max: nat) returns (result: Fetched, turns: nat)
    ensures (result, turns) == Fetch(answers, name, max, [], false, 0)
  {
    var out: seq<Byte>, retried := [], false;
    turns := 0;
    while true
      invariant Fetch(answers, name, max, [], false, 0) == Fetch(answers, name, max, out, retried, turns)
      decreases max - |out|, if retried then 0 else 1
    {
      var reply := answers(turns, Request(name, |out| % 0x1_0000_0000));
      turns := turns + 1;
      if reply.NoLink? {
        return Failed, turns;
      }
      if reply.Lost? {
        if retried {
          return Failed, turns;
        }
        retried := true;
        continue;
      }
      var r := reply.answer;
      if r == [] {
        return Failed, turns;
      }
      if r[0] == 1 {
        return Absent, turns;
      }
      if r[0] != 0 || |r| < 5 {
        return Failed, turns;
      }
      var total := Messages.Word32(r[1..5]);
      if total > max {
        return Failed, turns;
      }
      var chunk := r[5..];
      if chunk == [] && |out| < total {
        return Failed, turns;
      }
      if |out + chunk| >= total {
        return Got((out + chunk)[..total]), turns;
      }
      out := out + chunk;
    }
  }

  // ---------------------------------------------------------------- it always ends, within bounds

  /**
   Against any answers at all: what is fetched is at most `max` bytes, and at most one request is
   made for each byte there may be, and two more.
   */
  lemma {:induction false} FetchBounded(answers: Answers, name: Text, max: nat, out: seq<Byte>, retried: bool,
                                        turn: nat)
    requires |out| <= max
    ensures var (result, turns) := Fetch(answers, name, max, out, retried, turn);
      && (result.Got? ==> |result.file| <= max)
      && turn < turns <= turn + (max - |out|) + (if retried then 1 else 2)
    decreases max - |out|, if retried then 0 else 1
  {
    hide Take;
    match answers(turn, Request(name, |out| % 0x1_0000_0000))
    case NoLink =>
    case Lost =>
      if !retried {
        FetchBounded(answers, name, max, out, true, turn + 1);
      }
    case Came(reply) =>
      match Take(out, reply, max)
      case Done(_) =>
      case Again(more) => FetchBounded(answers, name, max, more, retried, turn + 1);
  }

  // ---------------------------------------------------------------- it is exact

  /** A request says what was asked exactly when the name's length fits its byte. */
  lemma RequestParses(name: Text, offset: U32)
    requires IsUtf8(name)
    ensures Parse(Request(name, offset)) == Some(Asked(name, offset)) <==> |name| < 256
  {
    hide IsUtf8;
    var body := Request(name, offset);
    if |name| < 256 {
      assert body[1..1 + |name|] == name && body[1 + |name|..1 + |name| + 4] == Messages.Bytes32(offset);
      NumberBack(offset);
    }
  }

  lemma NumberBack(v: U32)
    ensures Messages.Word32(Messages.Bytes32(v)) == v
  {
  }

  /** The seed's answer to a request for what it holds. */
  lemma AnswerIs(dir: map<Text, seq<Byte>>, servable: Text -> bool, name: Text, offset: U32)
    requires IsUtf8(name) && |name| < 256 && servable(name) && name in dir && |dir[name]| < 0x1_0000_0000
    ensures var r := Answer(dir, servable, Request(name, offset));
      && |r| >= 5 && r[0] == 0 && Messages.Word32(r[1..5]) == |dir[name]| && r[5..] == ChunkOf(dir[name], offset)
  {
    hide IsUtf8, ChunkOf, Parse, Request, Messages.Bytes32, Messages.Word32;
    RequestParses(name, offset);
    var total, chunk := Messages.Bytes32(|dir[name]|), ChunkOf(dir[name], offset);
    var r := Answer(dir, servable, Request(name, offset));
    assert r == [0] + (total + chunk);
    AfterStatus(total, chunk);
    NumberBack(|dir[name]|);
  }

  lemma AfterStatus(total: seq<Byte>, chunk: seq<Byte>)
    requires |total| == 4
    ensures var r := [0] + (total + chunk); r[0] == 0 && r[1..5] == total && r[5..] == chunk
  {
  }

  /** One chunk on from a prefix of the file: a longer prefix, or the file. */
  lemma TakeChunk(file: seq<Byte>, k: nat, reply: seq<Byte>, max: nat)
    requires k <= |file| <= max && |reply| >= 5 && reply[0] == 0
    requires Messages.Word32(reply[1..5]) == |file| && reply[5..] == ChunkOf(file, k)
    ensures var end := if k + CHUNK < |file| then k + CHUNK else |file|;
      Take(file[..k], reply, max) == if end == |file| then Done(Got(file)) else Again(file[..end])
  {
    var end := if k + CHUNK < |file| then k + CHUNK else |file|;
    assert file[..k] + ChunkOf(file, k) == file[..end];
    assert file[..|file|] == file;
  }

  /** A seed that can be linked to, whose folder does not change, and at most one request lost. */
  ghost predicate FromSeed(answers: Answers, dir: map<Text, seq<Byte>>, servable: Text -> bool, lost: nat) {
    forall i, body :: answers(i, body) == if i == lost then Lost else Came(Answer(dir, servable, body))
  }

  /** One turn of the loop. */
  lemma {:induction false} FetchTurn(answers: Answers, name: Text, max: nat, out: seq<Byte>, retried: bool, turn: nat)
    ensures Fetch(answers, name, max, out, retried, turn)
         == match answers(turn, Request(name, |out| % 0x1_0000_0000))
            case NoLink => (Failed, turn + 1)
            case Lost => if retried then (Failed, turn + 1) else Fetch(answers, name, max, out, true, turn + 1)
            case Came(reply) =>
              (match Take(out, reply, max)
               case Done(result) => (result, turn + 1)
               case Again(more) => Fetch(answers, name, max, more, retried, turn + 1))
  {
    hide Take, Request;
  }

  lemma {:induction false} FetchRest(answers: Answers, dir: map<Text, seq<Byte>>, servable: Text -> bool, lost: nat,
                                     name: Text, max: nat, k: nat, retried: bool, turn: nat)
    requires FromSeed(answers, dir, servable, lost) && (retried ==> lost < turn)
    requires IsUtf8(name) && |name| < 256 && servable(name) && name in dir && |dir[name]| < 0x1_0000_0000
    requires |dir[name]| <= max && k <= |dir[name]|
    ensures Fetch(answers, name, max, dir[name][..k], retried, turn).0 == Got(dir[name])
    decreases |dir[name]| - k, if retried then 0 else 1
  {
    hide IsUtf8, Answer, ChunkOf, Take, Fetch, Request;
    FetchTurn(answers, name, max, dir[name][..k], retried, turn);
    if turn == lost {
      FetchRest(answers, dir, servable, lost, name, max, k, true, turn + 1);
    } else {
      var file := dir[name];
      AnswerIs(dir, servable, name, k);
      assert answers(turn, Request(name, k)) == Came(Answer(dir, servable, Request(name, k)));
      TakeChunk(file, k, Answer(dir, servable, Request(name, k)), max);
      var end := if k + CHUNK < |file| then k + CHUNK else |file|;
      if end < |file| {
        FetchRest(answers, dir, servable, lost, name, max, end, retried, turn + 1);
      }
    }
  }

  /** From a seed that holds it, with at most one answer lost, the file comes whole exactly if it is within `max`. */
  lemma {:induction false} FetchExact(answers: Answers, dir: map<Text, seq<Byte>>,
                                      servable: Text -> bool, lost: nat, name: Text, max: nat)
    requires FromSeed(answers, dir, servable, lost)
    requires IsUtf8(name) && |name| < 256 && servable(name) && name in dir && |dir[name]| < 0x1_0000_0000
    ensures Fetch(answers, name, max, [], false, 0).0 == Got(dir[name]) <==> |dir[name]| <= max
  {
    hide IsUtf8;
    if |dir[name]| <= max {
      FetchRest(answers, dir, servable, lost, name, max, 0, false, 0);
      assert dir[name][..0] == [];
    } else {
      FetchBounded(answers, name, max, [], false, 0);
    }
  }

  /** And what the seed does not hold is reported as absent. */
  lemma {:induction false} FetchAbsent(answers: Answers, dir: map<Text, seq<Byte>>,
                                       servable: Text -> bool, lost: nat, name: Text, max: nat)
    requires FromSeed(answers, dir, servable, lost)
    requires IsUtf8(name) && |name| < 256 && servable(name) && name !in dir
    ensures Fetch(answers, name, max, [], false, 0).0 == Absent
  {
    hide IsUtf8, Fetch, Request, Parse;
    RequestParses(name, 0);
    var body := Request(name, 0);
    assert Answer(dir, servable, body) == [1];
    FetchTurn(answers, name, max, [], false, 0);
    if lost == 0 {
      assert answers(1, body) == Came([1]);
      FetchTurn(answers, name, max, [], true, 1);
    }
  }

  /** A name the seed may not serve is refused, whether it holds it or not: never read, never reported absent. */
  lemma {:induction false} FetchRefused(answers: Answers, dir: map<Text, seq<Byte>>,
                                        servable: Text -> bool, lost: nat, name: Text, max: nat)
    requires FromSeed(answers, dir, servable, lost)
    requires IsUtf8(name) && |name| < 256 && !servable(name)
    ensures Fetch(answers, name, max, [], false, 0).0 == Failed
  {
    hide IsUtf8, Fetch, Request, Parse;
    RequestParses(name, 0);
    var body := Request(name, 0);
    assert Answer(dir, servable, body) == [2];
    FetchTurn(answers, name, max, [], false, 0);
    if lost == 0 {
      assert answers(1, body) == Came([2]);
      FetchTurn(answers, name, max, [], true, 1);
    }
  }
}
