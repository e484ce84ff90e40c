/** Bytes, big-endian words, IPv4 addresses and identities: what every other module's wire data is made of. */
module Wire {

  datatype Option<+T> = None | Some(value: T)

  type Byte = x: int | 0 <= x < 256
  type U16 = x: int | 0 <= x < 0x1_0000
  type U32 = x: int | 0 <= x < 0x1_0000_0000

  /** The 16 bytes of an identity hash. */
  type Identity = s: seq<Byte> | |s| == 16 witness seq(16, _ => 0)

  datatype Addr = Addr(a: Byte, b: Byte, c: Byte, d: Byte) {
    function Octets(): seq<Byte> { [a, b, c, d] }
  }

  /** The big-endian 16-bit word at `at`. */
  function Word(p: seq<Byte>, at: nat): U16
    requires at + 2 <= |p|
  {
    p[at] as int * 256 + p[at + 1] as int
  }

  function Bytes16(v: U16): (s: seq<Byte>)
    ensures |s| == 2
  {
    [v / 256, v % 256]
  }

  function AddrAt(p: seq<Byte>, at: nat): Addr
    requires at + 4 <= |p|
  {
    Addr(p[at], p[at + 1], p[at + 2], p[at + 3])
  }

  /** `p` with `bytes` written over what is at `at`. */
  function Splice(p: seq<Byte>, at: nat, bytes: seq<Byte>): (q: seq<Byte>)
    requires at + |bytes| <= |p|
    ensures |q| == |p|
  {
    p[..at] + bytes + p[at + |bytes|..]
  }

  lemma SpliceOut(p: seq<Byte>, at: nat, bytes: seq<Byte>, i: nat, j: nat)
    requires at + |bytes| <= |p| && i <= j <= |p| && (j <= at || at + |bytes| <= i)
    ensures Splice(p, at, bytes)[i..j] == p[i..j]
  {
    var q := Splice(p, at, bytes);
    forall k | i <= k < j ensures q[k] == p[k] {}
  }

  lemma SpliceIndex(p: seq<Byte>, at: nat, bytes: seq<Byte>)
    requires at + |bytes| <= |p|
    ensures forall k :: 0 <= k < |p| ==>
              Splice(p, at, bytes)[k] == if at <= k < at + |bytes| then bytes[k - at] else p[k]
  {
  }

  lemma SliceIndex(p: seq<Byte>, q: seq<Byte>, i: nat, j: nat)
    requires i <= j <= |p| && j <= |q| && p[i..j] == q[i..j]
    ensures forall k :: i <= k < j ==> p[k] == q[k]
  {
    forall k | i <= k < j ensures p[k] == q[k] {
      assert p[i..j][k - i] == p[k] && q[i..j][k - i] == q[k];
    }
  }

  lemma SliceOfTail<T>(b: seq<T>, i: nat, j: nat, k: nat)
    requires j <= k && i + k <= |b|
    ensures b[i..][j..k] == b[i + j..i + k] && b[i..][k..] == b[i + k..]
  {
  }

  /** The in-place counterpart of Splice. */
  method CopyInto(p: array<Byte>, at: nat, bytes: seq<Byte>)
    requires at + |bytes| <= p.Length
    modifies p
    ensures p[..] == Splice(old(p[..]), at, bytes)
    ensures forall k :: 0 <= k < p.Length && !(at <= k < at + |bytes|) ==> p[k] == old(p[k])
  {
    for i := 0 to |bytes|
      invariant forall k :: 0 <= k < p.Length ==> p[k] == if at <= k < at + i then bytes[k - at] else old(p[k])
    {
      p[at + i] := bytes[i];
    }
  }

  // ---------------------------------------------------------------- collections

  lemma {:induction false} SubsetSize<T>(a: set<T>, b: set<T>)
    requires a <= b
    ensures |a| <= |b|
  {
    if a != {} {
      var x :| x in a;
      SubsetSize(a - {x}, b - {x});
    }
  }
}
