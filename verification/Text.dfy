/** Text as its UTF-8 bytes (RFC 3629), and the plain text the room and chat protocols accept. */
module Text {
  import opened Wire

  type Text = seq<Byte>

  predicate IsTail(b: Byte) { 0x80 <= b < 0xc0 }

  /** How many bytes a character starting with `b` takes; 0 for a byte that starts none. */
  function Width(b: Byte): nat {
    if b < 0x80 then 1
    else if 0xc2 <= b < 0xe0 then 2
    else if 0xe0 <= b < 0xf0 then 3
    else if 0xf0 <= b < 0xf5 then 4
    else 0
  }

  predicate Tails(s: Text) { s == [] || (IsTail(s[0]) && Tails(s[1..])) }

  /** The first character: shortest form only, no surrogates, nothing past U+10FFFF. */
  function First(s: Text): (r: Option<int>)
    requires s != []
    ensures r.Some? ==> 1 <= Width(s[0]) <= |s|
  {
    var n := Width(s[0]);
    if n == 0 || |s| < n || !Tails(s[1..n]) then None
    else
      var c := if n == 1 then s[0] as int
               else if n == 2 then (s[0] as int - 0xc0) * 0x40 + (s[1] as int - 0x80)
               else if n == 3 then (s[0] as int - 0xe0) * 0x1000 + (s[1] as int - 0x80) * 0x40 + (s[2] as int - 0x80)
               else (s[0] as int - 0xf0) * 0x4_0000 + (s[1] as int - 0x80) * 0x1000
                    + (s[2] as int - 0x80) * 0x40 + (s[3] as int - 0x80);
      if (n == 3 && (c < 0x800 || 0xd800 <= c < 0xe000)) || (n == 4 && !(0x1_0000 <= c < 0x11_0000)) then None
      else Some(c)
  }

  /** A Unicode scalar value. */
  predicate IsScalar(c: int) { 0 <= c < 0xd800 || 0xe000 <= c < 0x11_0000 }

  /** Its encoding, by the table of RFC 3629, section 3. */
  function Utf8(c: int): Text
    requires IsScalar(c)
  {
    if c < 0x80 then [c]
    else if c < 0x800 then [0xc0 + c / 0x40, 0x80 + c % 0x40]
    else if c < 0x1_0000 then [0xe0 + c / 0x1000, 0x80 + c / 0x40 % 0x40, 0x80 + c % 0x40]
    else [0xf0 + c / 0x4_0000, 0x80 + c / 0x1000 % 0x40, 0x80 + c / 0x40 % 0x40, 0x80 + c % 0x40]
  }

  /** The first character is read as `c` exactly where `c`'s own encoding stands: no longer form, no surrogate. */
  lemma FirstIs(s: Text, c: int)
    requires s != []
    ensures First(s) == Some(c) <==> IsScalar(c) && Utf8(c) <= s
  {
    if First(s) == Some(c) {
      FirstForth(s, c);
    } else if IsScalar(c) && Utf8(c) <= s {
      FirstBack(c, s);
    }
  }

  /** Six bits at a time. */
  lemma Digits(a: nat, b: nat, d: nat, e: nat)
    requires b < 0x40 && d < 0x40 && e < 0x40
    ensures (a * 0x40 + b) / 0x40 == a && (a * 0x40 + b) % 0x40 == b
    ensures var c := a * 0x1000 + b * 0x40 + d; c / 0x1000 == a && c / 0x40 % 0x40 == b && c % 0x40 == d
    ensures var c := a * 0x4_0000 + b * 0x1000 + d * 0x40 + e;
      c / 0x4_0000 == a && c / 0x1000 % 0x40 == b && c / 0x40 % 0x40 == d && c % 0x40 == e
  {
    FourDigits(a, b, d, e);
  }

  lemma FourDigits(a: nat, b: nat, d: nat, e: nat)
    requires b < 0x40 && d < 0x40 && e < 0x40
    ensures var c := a * 0x4_0000 + b * 0x1000 + d * 0x40 + e;
      c / 0x4_0000 == a && c / 0x1000 % 0x40 == b && c / 0x40 % 0x40 == d && c % 0x40 == e
  {
    var c := a * 0x4_0000 + b * 0x1000 + d * 0x40 + e;
    assert c / 0x40 == a * 0x1000 + b * 0x40 + d;
    assert c / 0x1000 == a * 0x40 + b;
  }

  /** The value of a character's bytes, wherever they stand. */
  lemma FirstIn(s: Text, n: nat)
    requires 0 < n <= |s| && n == Width(s[0])
    ensures First(s).Some? ==> First(s[..n]) == First(s) && forall k :: 1 <= k < n ==> IsTail(s[k])
    ensures First(s[..n]).Some? ==> First(s) == First(s[..n])
  {
    TailsAre(s[1..n]);
    assert s[..n][1..n] == s[1..n];
    assert forall k :: 0 <= k < n ==> s[..n][k] == s[k];
    assert forall k :: 1 <= k < n ==> s[1..n][k - 1] == s[k];
  }

  lemma FirstForth(s: Text, c: int)
    requires s != [] && First(s) == Some(c)
    ensures IsScalar(c) && Utf8(c) <= s
  {
    var n := Width(s[0]);
    FirstIn(s, n);
    Reencoded(s[..n], c);
    assert s[..n] <= s;
  }

  lemma Reencoded(s: Text, c: int)
    requires s != [] && First(s) == Some(c) && |s| == Width(s[0]) && forall k :: 1 <= k < |s| ==> IsTail(s[k])
    ensures IsScalar(c) && Utf8(c) == s
  {
    var n := |s|;
    if n == 2 {
      Digits(s[0] - 0xc0, s[1] - 0x80, 0, 0);
      assert s == [s[0], s[1]];
    } else if n == 3 {
      Digits(s[0] - 0xe0, s[1] - 0x80, s[2] - 0x80, 0);
      assert s == [s[0], s[1], s[2]];
    } else if n == 4 {
      Digits(s[0] - 0xf0, s[1] - 0x80, s[2] - 0x80, s[3] - 0x80);
      assert s == [s[0], s[1], s[2], s[3]];
    }
  }

  lemma {:induction false} TailsAre(s: Text)
    ensures Tails(s) <==> forall i :: 0 <= i < |s| ==> IsTail(s[i])
  {
    if s != [] {
      TailsAre(s[1..]);
      assert s == [s[0]] + s[1..];
    }
  }

  lemma FirstBack(c: int, s: Text)
    requires IsScalar(c) && Utf8(c) <= s
    ensures First(s) == Some(c)
  {
    var u := Utf8(c);
    Decoded(c);
    assert s[..|u|] == u;
    FirstIn(s, |u|);
  }

  lemma Decoded(c: int)
    requires IsScalar(c)
    ensures var u := Utf8(c); Width(u[0]) == |u| && First(u) == Some(c)
  {
    var u := Utf8(c);
    TailsAre(u[1..|u|]);
    assert forall k :: 1 <= k < |u| ==> u[1..|u|][k - 1] == u[k];
    Sextets(c);
  }

  lemma Sextets(c: nat)
    ensures c == c / 0x40 * 0x40 + c % 0x40
    ensures c == c / 0x1000 * 0x1000 + c / 0x40 % 0x40 * 0x40 + c % 0x40
    ensures c == c / 0x4_0000 * 0x4_0000 + c / 0x1000 % 0x40 * 0x1000 + c / 0x40 % 0x40 * 0x40 + c % 0x40
  {
    var e := c / 0x40;
    var b := e / 0x40;
    Digits(b, e % 0x40, c % 0x40, 0);
    Digits(b / 0x40, b % 0x40, e % 0x40, c % 0x40);
  }

  /** The characters of valid UTF-8. */
  function Chars(s: Text): Option<seq<int>> {
    if s == [] then Some([])
    else
      match First(s)
      case None => None
      case Some(c) =>
        match Chars(s[Width(s[0])..])
        case None => None
        case Some(rest) => Some([c] + rest)
  }

  predicate IsUtf8(s: Text) { Chars(s).Some? }

  predicate IsSpace(c: int) {
    9 <= c <= 13 || c in {0x20, 0x85, 0xa0, 0x1680, 0x2028, 0x2029, 0x202f, 0x205f, 0x3000} || 0x2000 <= c <= 0x200a
  }

  predicate IsControl(c: int) { 0 <= c < 0x20 || 0x7f <= c < 0xa0 }

  /** Trimmed, not empty, at most `max` bytes, and one line without control characters. */
  predicate PlainText(s: Text, max: nat) {
    s != [] && |s| <= max && Chars(s).Some? && OneLine(Chars(s).value)
  }

  predicate OneLine(cs: seq<int>) {
    && cs != [] && !IsSpace(cs[0]) && !IsSpace(cs[|cs| - 1])
    && forall c :: c in cs ==> !IsControl(c) && c != 0x2028 && c != 0x2029
  }

  const MAX_NAME_BYTES := 32
  const MAX_CHAT_BYTES := 280

  predicate ValidName(s: Text) { PlainText(s, MAX_NAME_BYTES) }
  predicate ValidChat(s: Text) { PlainText(s, MAX_CHAT_BYTES) }

  // ---------------------------------------------------------------- what the text functions mean

  /** Characters, each in its encoding, one after another. */
  function Encoded(cs: seq<int>): Text
    requires AllScalar(cs)
  {
    if cs == [] then [] else Utf8(cs[0]) + Encoded(cs[1..])
  }

  predicate AllScalar(cs: seq<int>) { forall i :: 0 <= i < |cs| ==> IsScalar(cs[i]) }

  /** Bytes read as characters exactly if they are those characters' encodings and nothing else. */
  lemma {:induction false} CharsAre(s: Text, cs: seq<int>)
    ensures Chars(s) == Some(cs) <==> AllScalar(cs) && s == Encoded(cs)
  {
    if Chars(s) == Some(cs) {
      CharsForth(s, cs);
    } else if AllScalar(cs) && s == Encoded(cs) {
      CharsBack(s, cs);
    }
  }

  lemma {:induction false} CharsForth(s: Text, cs: seq<int>)
    requires Chars(s) == Some(cs)
    ensures AllScalar(cs) && s == Encoded(cs)
    decreases |s|
  {
    hide First, Utf8;
    if s != [] {
      var c, n := First(s).value, Width(s[0]);
      FirstIs(s, c);
      FirstWidth(s, c);
      assert cs[0] == c && Chars(s[n..]) == Some(cs[1..]);
      CharsForth(s[n..], cs[1..]);
      assert forall i :: 0 < i < |cs| ==> cs[i] == cs[1..][i - 1];
      assert s == Utf8(c) + s[n..];
    }
  }

  lemma {:induction false} CharsBack(s: Text, cs: seq<int>)
    requires AllScalar(cs) && s == Encoded(cs)
    ensures Chars(s) == Some(cs)
    decreases |cs|
  {
    hide First, Utf8;
    if cs != [] {
      var c, rest := cs[0], Encoded(cs[1..]);
      Decoded(c);
      assert s == Utf8(c) + rest && s[..|Utf8(c)|] == Utf8(c);
      Utf8Starts(c);
      FirstIs(s, c);
      FirstWidth(s, c);
      assert s[|Utf8(c)|..] == rest;
      CharsBack(rest, cs[1..]);
      assert cs == [c] + cs[1..];
    }
  }

  lemma Utf8Starts(c: int)
    requires IsScalar(c)
    ensures Utf8(c) != []
  {
  }

  lemma FirstWidth(s: Text, c: int)
    requires s != [] && IsScalar(c) && Utf8(c) <= s
    ensures Width(s[0]) == |Utf8(c)|
  {
    Decoded(c);
  }

  /** Unicode's White_Space. */
  predicate White(c: int) {
    || c in {0x9, 0xa, 0xb, 0xc, 0xd, 0x20, 0x85, 0xa0, 0x1680} || 0x2000 <= c <= 0x200a
    || c in {0x2028, 0x2029, 0x202f, 0x205f, 0x3000}
  }

  /** No white space at either end, and no control character or line break anywhere. */
  predicate OnePlainLine(cs: seq<int>) {
    && cs != [] && !White(cs[0]) && !White(cs[|cs| - 1])
    && forall i :: 0 <= i < |cs| ==> !(0 <= cs[i] < 32 || 127 <= cs[i] <= 159 || cs[i] in {0x2028, 0x2029})
  }

  /** A name is one plain line of at most 32 bytes, a chat line one of at most 280. */
  lemma {:induction false} PlainWhen(s: Text)
    ensures ValidName(s) <==> 0 < |s| <= 32 && Chars(s).Some? && OnePlainLine(Chars(s).value)
    ensures ValidChat(s) <==> 0 < |s| <= 280 && Chars(s).Some? && OnePlainLine(Chars(s).value)
  {
    hide Chars;
    if Chars(s).Some? {
      LineWhen(Chars(s).value);
    }
  }

  lemma LineWhen(cs: seq<int>)
    ensures OneLine(cs) <==> OnePlainLine(cs)
  {
    if OneLine(cs) {
      forall i | 0 <= i < |cs|
        ensures !(0 <= cs[i] < 32 || 127 <= cs[i] <= 159 || cs[i] in {0x2028, 0x2029})
      {
        assert cs[i] in cs;
      }
    }
  }
}
