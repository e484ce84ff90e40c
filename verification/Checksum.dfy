/**
 The Internet checksum (RFC 1071) and its incremental update (RFC 1624, section 3, equation 3).

 A ones'-complement sum is a natural number folded into 16 bits; `Canon` is the value the
 folding loops reach.  It is the residue modulo 65535, with 65535 (never 0) standing for a
 positive multiple of 65535, so the two representatives of zero stay apart.
 */
module Checksum {
  import opened Wire

  // ---------------------------------------------------------------- sums

  /** The sum of the 16-bit words of `p[from..end]`, an odd last byte padded with zero. */
  function Sum(p: seq<Byte>, from: nat, end: nat): nat
    requires from <= end <= |p|
    decreases |p| - from
  {
    if from == end then 0
    else if from + 1 == end then p[from] as int * 256
    else Word(p, from) + Sum(p, from + 2, end)
  }

  function SumOf(p: seq<Byte>): nat { Sum(p, 0, |p|) }

  function SumParts(parts: seq<seq<Byte>>): nat {
    if parts == [] then 0 else SumOf(parts[0]) + SumParts(parts[1..])
  }

  function TotalLen(parts: seq<seq<Byte>>): nat {
    if parts == [] then 0 else |parts[0]| + TotalLen(parts[1..])
  }

  lemma {:induction false} SumBound(p: seq<Byte>, from: nat, end: nat)
    requires from <= end <= |p|
    ensures 2 * Sum(p, from, end) <= 65535 * (end - from + 1)
    decreases end - from
  {
    if from + 1 < end {
      SumBound(p, from + 2, end);
    }
  }

  /** Equal bytes, possibly at another place, have equal sums. */
  lemma {:induction false} SumSame(p: seq<Byte>, i: nat, q: seq<Byte>, j: nat, n: nat)
    requires i + n <= |p| && j + n <= |q|
    requires p[i..i + n] == q[j..j + n]
    ensures Sum(p, i, i + n) == Sum(q, j, j + n)
    decreases n
  {
    if n >= 1 {
      assert p[i] == p[i..i + n][0] && q[j] == q[j..j + n][0];
    }
    if n >= 2 {
      assert p[i + 1] == p[i..i + n][1] && q[j + 1] == q[j..j + n][1];
      assert p[i + 2..i + n] == p[i..i + n][2..] && q[j + 2..j + n] == q[j..j + n][2..];
      SumSame(p, i + 2, q, j + 2, n - 2);
    }
  }

  /** A sum splits at any even distance. */
  lemma {:induction false} SumSplit(p: seq<Byte>, from: nat, mid: nat, end: nat)
    requires from <= mid <= end <= |p| && (mid - from) % 2 == 0
    ensures Sum(p, from, end) == Sum(p, from, mid) + Sum(p, mid, end)
    decreases mid - from
  {
    if from < mid {
      SumSplit(p, from + 2, mid, end);
    }
  }

  /** Overwriting aligned words changes the sum by exactly their difference. */
  lemma {:induction false} SumSplice(p: seq<Byte>, from: nat, end: nat, at: nat, bytes: seq<Byte>)
    requires from <= at && at + |bytes| <= end <= |p| && (at - from) % 2 == 0 && |bytes| % 2 == 0
    ensures Sum(Splice(p, at, bytes), from, end)
         == Sum(p, from, end) - SumOf(p[at..at + |bytes|]) + SumOf(bytes)
  {
    var q, next := Splice(p, at, bytes), at + |bytes|;
    SumSplit(p, from, at, end);
    SumSplit(p, at, next, end);
    SumSplit(q, from, at, end);
    SumSplit(q, at, next, end);
    SumSpliceOutside(p, from, at, at, bytes);
    SumSpliceOutside(p, next, end, at, bytes);
    SumSlice(q, at, next);
    SumSlice(p, at, next);
    assert q[at..next] == bytes;
  }

  lemma {:induction false} SumSlice(p: seq<Byte>, from: nat, end: nat)
    requires from <= end <= |p|
    ensures Sum(p, from, end) == SumOf(p[from..end])
  {
    var s := p[from..end];
    assert s[0..|s|] == s;
    SumSame(p, from, s, 0, |s|);
  }

  /** Overwriting elsewhere changes nothing. */
  lemma {:induction false} SumSpliceOutside(p: seq<Byte>, from: nat, end: nat, at: nat, bytes: seq<Byte>)
    requires at + |bytes| <= |p| && from <= end <= |p| && (at + |bytes| <= from || end <= at)
    ensures Sum(Splice(p, at, bytes), from, end) == Sum(p, from, end)
  {
    var q := Splice(p, at, bytes);
    assert p[from..end] == q[from..end];
    SumSame(p, from, q, from, end - from);
  }

  lemma WordSum(p: seq<Byte>, at: nat)
    requires at + 2 <= |p|
    ensures SumOf(p[at..at + 2]) == Word(p, at)
  {
    var w := p[at..at + 2];
    assert Sum(w, 2, 2) == 0;
  }

  lemma SumBytes16(v: U16)
    ensures SumOf(Bytes16(v)) == v
  {
    assert Sum(Bytes16(v), 2, 2) == 0;
  }

  // ---------------------------------------------------------------- folding

  /** What folding carries back into 16 bits reaches. */
  function Canon(n: nat): (r: U16)
    ensures r == 0 <==> n == 0
    ensures r % 65535 == n % 65535
  {
    if n == 0 then 0 else (n - 1) % 65535 + 1
  }

  lemma CanonUnique(m: nat, n: nat)
    requires m % 65535 == n % 65535 && (m == 0 <==> n == 0)
    ensures Canon(m) == Canon(n)
  {
  }

  lemma CanonFoldOnce(n: nat)
    ensures Canon(n % 0x1_0000 + n / 0x1_0000) == Canon(n)
    ensures n >= 0x1_0000 ==> n % 0x1_0000 + n / 0x1_0000 < n
  {
    var q, r := n / 0x1_0000, n % 0x1_0000;
    assert n == (r + q) + 65535 * q;
    ModAdd(r + q, q);
    CanonUnique(r + q, n);
  }

  lemma ModAdd(x: int, k: int)
    ensures (x + 65535 * k) % 65535 == x % 65535
  {
  }

  lemma CanonSmall(n: nat)
    requires n < 0x1_0000
    ensures Canon(n) == n
  {
  }

  /** The folding loop of both checksum routines: it ends, and never leaves 32 bits. */
  method Fold(start: U32) returns (r: U16)
    ensures r == Canon(start)
  {
    var acc: U32 := start;
    while acc / 0x1_0000 != 0
      invariant Canon(acc) == Canon(start)
      decreases acc
    {
      CanonFoldOnce(acc);
      acc := acc % 0x1_0000 + acc / 0x1_0000;
    }
    CanonSmall(acc);
    r := acc;
  }

  // ---------------------------------------------------------------- from scratch

  /** A receiver's test: the sum of everything, checksum included, folds to all ones. */
  predicate Verifies(total: nat) { Canon(total) == 0xffff }

  lemma VerifiesIff(total: nat)
    ensures Verifies(total) <==> total > 0 && total % 65535 == 0
  {
  }

  function Complement(total: nat): U16 { 0xffff - Canon(total) }

  lemma ComplementVerifies(total: nat)
    requires total > 0
    ensures Verifies(total + Complement(total)) && Complement(total) != 0xffff
  {
    var c := Canon(total);
    assert (total - c) % 65535 == 0;
    assert total + Complement(total) == 65535 + (total - c);
    VerifiesIff(total + Complement(total));
  }

  /** The Internet checksum of a list of byte sequences; the accumulator is 32 bits wide. */
  method Compute(parts: seq<seq<Byte>>) returns (r: U16)
    requires TotalLen(parts) + |parts| <= 0x2_0000
    ensures r == Complement(SumParts(parts))
  {
    var sum: U32 := 0;
    ghost var left := 0x2_0000;
    for i := 0 to |parts|
      invariant sum + SumParts(parts[i..]) == SumParts(parts)
      invariant left >= TotalLen(parts[i..]) + |parts| - i
      invariant 2 * sum <= 65535 * (0x2_0000 - left)
    {
      var part := parts[i];
      assert parts[i..][0] == part && parts[i..][1..] == parts[i + 1..];
      SumBound(part, 0, |part|);
      ghost var before := sum;
      var j := 0;
      while j + 1 < |part|
        invariant j <= |part| && j % 2 == 0
        invariant sum + Sum(part, j, |part|) == before + SumOf(part)
      {
        sum := sum + Word(part, j);
        j := j + 2;
      }
      if j < |part| {
        sum := sum + part[j] as int * 256;
      }
      left := left - |part| - 1;
    }
    assert parts[|parts|..] == [];
    r := Fold(sum);
    r := 0xffff - r;
  }

  // ---------------------------------------------------------------- incremental

  /** The sum of the complements of the words of `s[from..]`. */
  function NotSum(s: seq<Byte>, from: nat): nat
    requires from <= |s| && (|s| - from) % 2 == 0
    decreases |s| - from
  {
    if from == |s| then 0 else 0xffff - Word(s, from) + NotSum(s, from + 2)
  }

  lemma {:induction false} NotSumIs(s: seq<Byte>, from: nat)
    requires from <= |s| && (|s| - from) % 2 == 0
    ensures 2 * (NotSum(s, from) + Sum(s, from, |s|)) == (|s| - from) * 0xffff
    decreases |s| - from
  {
    if from < |s| {
      NotSumIs(s, from + 2);
    }
  }

  /** Complementing subtracts, modulo 65535. */
  lemma {:induction false} NotSumMod(s: seq<Byte>, x: int)
    requires |s| % 2 == 0
    ensures (x + NotSum(s, 0)) % 65535 == (x - SumOf(s)) % 65535
  {
    NotSumIs(s, 0);
    var h := |s| / 2;
    assert |s| == 2 * h;
    assert x + NotSum(s, 0) == (x - SumOf(s)) + 65535 * h;
    ModAdd(x - SumOf(s), h);
  }

  lemma ModCong(x: int, y: int, z: int)
    requires x % 65535 == y % 65535
    ensures (x + z) % 65535 == (y + z) % 65535
  {
    ModAdd(y + z, x / 65535 - y / 65535);
  }

  /** HC' = ~(~HC + ~m + m'): what the incremental update is specified to return. */
  function Adjust(sum: U16, was: seq<Byte>, now: seq<Byte>): U16
    requires |was| == |now| && |was| % 2 == 0
  {
    Complement(0xffff - sum + NotSum(was, 0) + SumOf(now))
  }

  /** The loop over the words replaced; `old` and `new` are address- or word-sized. */
  method ChecksumAdjust(sum: U16, was: seq<Byte>, now: seq<Byte>) returns (r: U16)
    requires |was| == |now| && |was| % 2 == 0 && |was| <= 0x1_0000
    ensures r == Adjust(sum, was, now)
  {
    hide Canon, Word;
    var acc: U32 := 0xffff - sum;
    var i := 0;
    NotSumIs(was, 0);
    NotSumIs(now, 0);
    while i < |was|
      invariant i <= |was| && (|was| - i) % 2 == 0
      invariant acc + NotSum(was, i) + Sum(now, i, |now|) == 0xffff - sum + NotSum(was, 0) + SumOf(now)
    {
      acc := acc + (0xffff - Word(was, i));
      acc := acc + Word(now, i);
      i := i + 2;
    }
    r := Fold(acc);
    r := 0xffff - r;
  }

  /**
   The incremental update refines the sum from scratch: replacing words summing to `o` by words
   summing to `n` in data that summed to `rest + o` gives the very checksum a fresh sum gives.
   */
  lemma AdjustRefinesFresh(rest: nat, was: seq<Byte>, now: seq<Byte>)
    requires |was| == |now| && |was| % 2 == 0 && rest > 0
    ensures Adjust(Complement(rest + SumOf(was)), was, now) == Complement(rest + SumOf(now))
  {
    var s := rest + SumOf(was);
    NotSumMod(was, Canon(s) + SumOf(now));
    ModCong(Canon(s), s, SumOf(now) - SumOf(was));
    CanonUnique(Canon(s) + NotSum(was, 0) + SumOf(now), rest + SumOf(now));
  }

  /**
   What verified before an update verifies after it, whatever checksum (canonical or not) was
   there: `rest` is everything else the checksum covers.
   */
  lemma AdjustKeepsVerifying(rest: nat, sum: U16, was: seq<Byte>, now: seq<Byte>)
    requires |was| == |now| && |was| % 2 == 0 && rest + SumOf(now) > 0
    requires Verifies(rest + SumOf(was) + sum)
    ensures Verifies(rest + SumOf(now) + Adjust(sum, was, now))
  {
    var total := rest + SumOf(was) + sum;
    VerifiesIff(total);
    var x := 0xffff - sum + NotSum(was, 0) + SumOf(now);
    NotSumIs(was, 0);
    var h := |was| / 2;
    assert |was| == 2 * h;
    ModCong(Canon(x), x, -x);
    var k := (Canon(x) - x) / 65535;
    assert Canon(x) == x + 65535 * k;
    var after := rest + SumOf(now) + Adjust(sum, was, now);
    assert after == total - 65535 * (h + k);
    ModAdd(total, -(h + k));
    VerifiesIff(after);
  }

  /**
   Undoing an update gives back the checksum exactly when it was not 0xffff, the second
   representative of zero, which no sender's sum produces (ComplementVerifies).
   */
  lemma AdjustUndoes(sum: U16, was: seq<Byte>, now: seq<Byte>)
    requires |was| == |now| && |was| % 2 == 0 && |was| > 0
    ensures Adjust(Adjust(sum, was, now), now, was) == sum <==> sum != 0xffff
  {
    NotSumIs(was, 0);
    NotSumIs(now, 0);
    var x := 0xffff - sum + NotSum(was, 0) + SumOf(now);
    UndoMod(sum, |was|, Canon(x), x, Canon(x) + NotSum(now, 0) + SumOf(was));
  }

  lemma UndoMod(sum: U16, n: nat, cx: nat, x: nat, y: nat)
    requires cx == Canon(x) && y == 0xffff - sum + 65535 * n + cx - x && y > 0
    ensures 0xffff - Canon(y) == sum <==> sum != 0xffff
  {
    var k := CanonOff(x);
    var j := CanonOff(y);
    var t := n + k + j;
    assert Canon(y) == 0xffff - sum + 65535 * t;
    OnlyMultiple(0xffff - sum, Canon(y), t);
  }

  lemma OnlyMultiple(a: nat, b: nat, t: int)
    requires a <= 65535 && 0 < b <= 65535 && b == a + 65535 * t
    ensures a > 0 ==> t == 0
    ensures a == 0 ==> b == 65535
  {
  }

  /** Folding takes off a multiple of 65535. */
  lemma CanonOff(n: nat) returns (k: int)
    ensures Canon(n) == n + 65535 * k
  {
    k := if n == 0 then 0 else 0 - (n - 1) / 65535;
  }
}
