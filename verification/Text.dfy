// storableText (internal/netsafe/netsafe.go and
// internal/service/merchant_callback_service.go): making arbitrary bytes fit a
// TEXT column. Well-formed UTF-8 is that of RFC 3629, sections 3 and 4.

module Text {
  type byte = b: int | 0 <= b < 256

  // ---------------------------------------------------------------- UTF-8

  predicate Tail(b: byte) { 0x80 <= b <= 0xBF }

  /** The length of the character that s starts with; 0 if it starts with none
      (the grammar of section 4). */
  function Width(s: seq<byte>): (w: nat)
    ensures w <= 4 && w <= |s|
  {
    if |s| >= 1 && s[0] <= 0x7F then 1
    else if |s| >= 2 && 0xC2 <= s[0] <= 0xDF && Tail(s[1]) then 2
    else if |s| >= 3 && ThreeLead(s[0], s[1]) && Tail(s[2]) then 3
    else if |s| >= 4 && FourLead(s[0], s[1]) && Tail(s[2]) && Tail(s[3]) then 4
    else 0
  }

  predicate ThreeLead(a: byte, b: byte) {
    || (a == 0xE0 && 0xA0 <= b <= 0xBF)
    || (0xE1 <= a <= 0xEC && Tail(b))
    || (a == 0xED && 0x80 <= b <= 0x9F)
    || (0xEE <= a <= 0xEF && Tail(b))
  }

  predicate FourLead(a: byte, b: byte) {
    || (a == 0xF0 && 0x90 <= b <= 0xBF)
    || (0xF1 <= a <= 0xF3 && Tail(b))
    || (a == 0xF4 && 0x80 <= b <= 0x8F)
  }

  predicate Valid(s: seq<byte>) {
    s == [] || (Width(s) > 0 && Valid(s[Width(s)..]))
  }

  /** utf8.RuneStart: anything but a continuation byte. */
  predicate RuneStart(b: byte) { !Tail(b) }

  /** A character number: not above 10FFFF, not a surrogate (section 3). */
  predicate Scalar(c: int) { 0 <= c <= 0x10FFFF && !(0xD800 <= c <= 0xDFFF) }

  function Encode(c: int): seq<byte>
    requires Scalar(c)
  {
    if c < 0x80 then [c]
    else if c < 0x800 then [0xC0 + c / 64, 0x80 + c % 64]
    else if c < 0x10000 then [0xE0 + c / 64 / 64, 0x80 + c / 64 % 64, 0x80 + c % 64]
    else [0xF0 + c / 64 / 64 / 64, 0x80 + c / 64 / 64 % 64, 0x80 + c / 64 % 64, 0x80 + c % 64]
  }

  /** Six more bits. */
  function Joined(high: int, tail: byte): int { high * 64 + (tail as int - 0x80) }

  function Decode(s: seq<byte>): int
    requires Width(s) > 0
  {
    match Width(s)
    case 1 => s[0]
    case 2 => Joined(s[0] as int - 0xC0, s[1])
    case 3 => Joined(Joined(s[0] as int - 0xE0, s[1]), s[2])
    case _ => Joined(Joined(Joined(s[0] as int - 0xF0, s[1]), s[2]), s[3])
  }

  /** The grammar accepts exactly the encodings of character numbers. */
  lemma GrammarIsEncoding(s: seq<byte>)
    requires Width(s) > 0
    ensures Scalar(Decode(s)) && s[..Width(s)] == Encode(Decode(s))
  {
    if Width(s) == 2 { TwoBytes(s); }
    if Width(s) == 3 { ThreeBytes(s); }
    if Width(s) == 4 { FourBytes(s); }
  }

  lemma TwoBytes(s: seq<byte>)
    requires Width(s) == 2
    ensures Scalar(Decode(s)) && s[..2] == Encode(Decode(s))
  {
    Split(s[0] as int - 0xC0, s[1]);
  }

  lemma ThreeBytes(s: seq<byte>)
    requires Width(s) == 3
    ensures Scalar(Decode(s)) && s[..3] == Encode(Decode(s))
  {
    var high := s[0] as int - 0xE0;
    Split(high, s[1]);
    Split(Joined(high, s[1]), s[2]);
  }

  lemma FourBytes(s: seq<byte>)
    requires Width(s) == 4
    ensures Scalar(Decode(s)) && s[..4] == Encode(Decode(s))
  {
    var high := s[0] as int - 0xF0;
    Split(high, s[1]);
    Split(Joined(high, s[1]), s[2]);
    Split(Joined(Joined(high, s[1]), s[2]), s[3]);
  }

  lemma Split(high: int, tail: byte)
    requires Tail(tail)
    ensures Joined(high, tail) / 64 == high && Joined(high, tail) % 64 == tail as int - 0x80
  {}

  lemma EncodingIsGrammatical(c: int, rest: seq<byte>)
    requires Scalar(c)
    ensures Width(Encode(c) + rest) == |Encode(c)| && Decode(Encode(c) + rest) == c
  {
    var t := Encode(c) + rest;
    if c < 0x80 {
      assert t[0] == c;
    } else if c < 0x800 {
      EncodesTwo(c, t);
    } else if c < 0x10000 {
      EncodesThree(c, t);
    } else {
      EncodesFour(c, t);
    }
  }

  lemma EncodesTwo(c: int, t: seq<byte>)
    requires 0x80 <= c < 0x800 && Encode(c) <= t
    ensures Width(t) == 2 && Decode(t) == c
  {
    assert t[..2] == Encode(c);
    assert t[0] == 0xC0 + c / 64 && t[1] == 0x80 + c % 64;
  }

  lemma EncodesThree(c: int, t: seq<byte>)
    requires 0x800 <= c < 0x10000 && Scalar(c) && Encode(c) <= t
    ensures Width(t) == 3 && Decode(t) == c
  {
    var d := c / 64;
    assert t[..3] == Encode(c);
    assert t[0] == 0xE0 + d / 64 && t[1] == 0x80 + d % 64 && t[2] == 0x80 + c % 64;
  }

  lemma EncodesFour(c: int, t: seq<byte>)
    requires 0x10000 <= c && Scalar(c) && Encode(c) <= t
    ensures Width(t) == 4 && Decode(t) == c
  {
    var d := c / 64;
    var e := d / 64;
    assert t[..4] == Encode(c);
    assert t[0] == 0xF0 + e / 64 && t[1] == 0x80 + e % 64 && t[2] == 0x80 + d % 64 && t[3] == 0x80 + c % 64;
  }

  // ---------------------------------------------------------------- cleaning

  /** strings.ToValidUTF8(s, "") */
  function ToValid(s: seq<byte>): seq<byte> {
    if s == [] then []
    else if Width(s) == 0 then ToValid(s[1..])
    else s[..Width(s)] + ToValid(s[Width(s)..])
  }

  /** strings.ReplaceAll(s, "\x00", "") */
  function DropNul(s: seq<byte>): seq<byte> {
    if s == [] then [] else (if s[0] == 0 then [] else [s[0]]) + DropNul(s[1..])
  }

  function Cleaned(s: seq<byte>): seq<byte> { DropNul(ToValid(s)) }

  /** The numbers of the characters in s, skipping bytes that belong to none. */
  function Characters(s: seq<byte>): seq<int> {
    if s == [] then []
    else if Width(s) == 0 then Characters(s[1..])
    else [Decode(s)] + Characters(s[Width(s)..])
  }

  function WithoutNul(cs: seq<int>): seq<int> {
    if cs == [] then [] else (if cs[0] == 0 then [] else [cs[0]]) + WithoutNul(cs[1..])
  }

  /** A character keeps its width and number whatever follows it. */
  lemma WidthIsLocal(s: seq<byte>, rest: seq<byte>)
    requires Width(s) > 0
    ensures Width(s[..Width(s)] + rest) == Width(s)
    ensures Decode(s[..Width(s)] + rest) == Decode(s)
  {
    var w := Width(s);
    var t := s[..w] + rest;
    assert forall i :: 0 <= i < w ==> t[i] == s[i];
  }

  lemma {:induction false} ToValidIsValid(s: seq<byte>)
    ensures Valid(ToValid(s)) && Characters(ToValid(s)) == Characters(s)
  {
    if s != [] {
      var w := Width(s);
      if w == 0 {
        ToValidIsValid(s[1..]);
      } else {
        ToValidIsValid(s[w..]);
        Prepend(s, ToValid(s[w..]));
      }
    }
  }

  /** No byte of a longer character is 0. */
  lemma NoNulInside(s: seq<byte>, rest: seq<byte>)
    requires Width(s) > 0
    ensures s[0] == 0 <==> Decode(s) == 0
    ensures s[0] != 0 ==> DropNul(s[..Width(s)] + rest) == s[..Width(s)] + DropNul(rest)
  {
    if s[0] != 0 {
      KeepsNonNul(s[..Width(s)], rest);
    }
  }

  lemma {:induction false} KeepsNonNul(p: seq<byte>, rest: seq<byte>)
    requires 0 !in p
    ensures DropNul(p + rest) == p + DropNul(rest)
  {
    if p == [] {
      assert p + rest == rest;
    } else {
      KeepsNonNul(p[1..], rest);
      assert (p + rest)[1..] == p[1..] + rest;
      assert 0 !in p[1..];
    }
  }

  lemma {:induction false} DropNulKeepsCharacters(s: seq<byte>)
    requires Valid(s)
    ensures Valid(DropNul(s)) && 0 !in DropNul(s)
    ensures Characters(DropNul(s)) == WithoutNul(Characters(s))
    decreases |s|
  {
    if s != [] {
      var w := Width(s);
      var rest := s[w..];
      DropNulKeepsCharacters(rest);
      NoNulInside(s, rest);
      assert s[..w] + rest == s;
      assert Characters(s)[1..] == Characters(rest);
      hide Decode, WithoutNul;
      if s[0] != 0 {
        Prepend(s, DropNul(rest));
        NonNulBytes(s);
        NonNulCharacter(Characters(s));
      } else {
        assert w == 1 && DropNul(s) == DropNul(rest);
        NulCharacter(Characters(s));
      }
    }
  }

  lemma NonNulCharacter(cs: seq<int>)
    requires cs != [] && cs[0] != 0
    ensures WithoutNul(cs) == [cs[0]] + WithoutNul(cs[1..])
  {}

  lemma NulCharacter(cs: seq<int>)
    requires cs != [] && cs[0] == 0
    ensures WithoutNul(cs) == WithoutNul(cs[1..])
  {}

  lemma Prepend(s: seq<byte>, rest: seq<byte>)
    requires Width(s) > 0 && Valid(rest)
    ensures Valid(s[..Width(s)] + rest)
    ensures Characters(s[..Width(s)] + rest) == [Decode(s)] + Characters(rest)
  {
    var w := Width(s);
    WidthIsLocal(s, rest);
    assert (s[..w] + rest)[w..] == rest;
  }

  lemma NonNulBytes(s: seq<byte>)
    requires Width(s) > 0 && s[0] != 0
    ensures 0 !in s[..Width(s)]
  {}

  /** Cleaning keeps exactly the characters of s other than NUL, in order. */
  lemma CleanedKeepsCharacters(s: seq<byte>)
    ensures Valid(Cleaned(s)) && 0 !in Cleaned(s)
    ensures Characters(Cleaned(s)) == WithoutNul(Characters(s))
  {
    ToValidIsValid(s);
    DropNulKeepsCharacters(ToValid(s));
  }

  // ---------------------------------------------------------------- cutting

  /** In valid text a prefix is valid exactly if it ends where a character starts
      or the text ends. */
  lemma {:induction false} Boundary(s: seq<byte>, n: nat)
    requires Valid(s) && n <= |s|
    ensures Valid(s[..n]) <==> n == |s| || RuneStart(s[n])
    decreases |s|
  {
    if 0 < n {
      var w := Width(s);
      if n < w {
        Truncated(s, n);
      } else {
        Boundary(s[w..], n - w);
        FirstCharacter(s, n);
        if n < |s| { assert s[n] == s[w..][n - w]; }
      }
    }
  }

  lemma FirstCharacter(s: seq<byte>, n: nat)
    requires 0 < Width(s) <= n <= |s|
    ensures Valid(s[..n]) <==> Valid(s[Width(s)..][..n - Width(s)])
  {
    var w := Width(s);
    hide Width, Decode;
    var rest := s[w..][..n - w];
    WidthIsLocal(s, rest);
    assert s[..n] == s[..w] + rest;
    assert s[..n][w..] == rest;
  }

  lemma Truncated(s: seq<byte>, n: nat)
    requires 0 < n < Width(s)
    ensures Width(s[..n]) == 0 && Tail(s[n])
  {}

  /** No character is longer than 4 bytes, so one of any 4 neighbouring places is
      a boundary. */
  lemma {:induction false} BoundaryNearby(s: seq<byte>, n: nat)
    requires Valid(s) && n < |s|
    ensures exists m :: 0 <= m <= n < m + 4 && RuneStart(s[m])
    decreases |s|
  {
    var w := Width(s);
    if n < w {
      assert RuneStart(s[0]);
    } else {
      BoundaryNearby(s[w..], n - w);
      var m :| 0 <= m <= n - w < m + 4 && RuneStart(s[w..][m]);
      assert s[w..][m] == s[m + w];
    }
  }

  /** r is the longest valid prefix of s within max bytes. */
  ghost predicate LongestPrefix(r: seq<byte>, s: seq<byte>, max: nat) {
    && r <= s && |r| <= max && Valid(r)
    && forall n :: |r| < n <= max && n <= |s| ==> !Valid(s[..n])
  }

  method StorableText(s: seq<byte>, maxBytes: nat) returns (r: seq<byte>)
    ensures LongestPrefix(r, Cleaned(s), maxBytes)
    ensures 0 !in r
    ensures r == Cleaned(s) || maxBytes - 3 <= |r|
  {
    var t := Cleaned(s);
    CleanedKeepsCharacters(s);
    if |t| <= maxBytes {
      return t;
    }
    var cut := maxBytes;
    while cut > 0 && !RuneStart(t[cut])
      invariant 0 <= cut <= maxBytes
      invariant forall n :: cut < n <= maxBytes ==> !RuneStart(t[n])
    {
      cut := cut - 1;
    }
    r := t[..cut];
    Boundary(t, cut);
    BoundaryNearby(t, maxBytes);
    forall n | cut < n <= maxBytes ensures !Valid(t[..n]) {
      Boundary(t, n);
    }
  }

  /** There is only one longest valid prefix. */
  lemma LongestIsUnique(p: seq<byte>, q: seq<byte>, s: seq<byte>, max: nat)
    requires LongestPrefix(p, s, max) && LongestPrefix(q, s, max)
    ensures p == q
  {
    assert p == s[..|p|] && q == s[..|q|];
  }

  /** Text is stored unchanged exactly if it is valid, free of NUL and fits. */
  lemma UnchangedExactlyIf(s: seq<byte>, r: seq<byte>, max: nat)
    requires LongestPrefix(r, Cleaned(s), max)
    ensures r == s <==> Valid(s) && 0 !in s && |s| <= max
  {
    CleanedKeepsCharacters(s);
    hide Valid, ToValid, DropNul, Cleaned;
    if Valid(s) && 0 !in s && |s| <= max {
      FineIsKept(s);
      WholeIsLongest(s, max);
      LongestIsUnique(r, s, s, max);
    }
    if r == s {
      assert forall b <- r :: b in Cleaned(s);
    }
  }

  lemma WholeIsLongest(s: seq<byte>, max: nat)
    requires Valid(s) && |s| <= max
    ensures LongestPrefix(s, s, max)
  {
    hide Valid;
    assert s[..|s|] == s;
  }

  lemma FineIsKept(s: seq<byte>)
    requires Valid(s) && 0 !in s
    ensures Cleaned(s) == s
  {
    ValidIsKept(s);
    KeepsNonNul(s, []);
    assert s + [] == s;
  }

  lemma {:induction false} ValidIsKept(s: seq<byte>)
    requires Valid(s)
    ensures ToValid(s) == s
    decreases |s|
  {
    if s != [] { ValidIsKept(s[Width(s)..]); }
  }
}
