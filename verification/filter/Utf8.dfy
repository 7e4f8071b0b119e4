/** The transport's texts as characters: which bytes are UTF-8 (RFC 3629), what is white space, what trimming does. */
module Utf8 {
  import opened Lists
  import opened FilterTransport

  /** A Unicode scalar value. */
  predicate IsScalar(c: int) {
    0 <= c <= 0x10FFFF && !(0xD800 <= c <= 0xDFFF)
  }

  /** The bytes of a character, by section 3 of RFC 3629. */
  function Bytes(c: int): (s: string)
    requires IsScalar(c)
    ensures 1 <= |s| <= 4
  {
    if c < 0x80 then [c as char]
    else if c < 0x800 then [(0xC0 + c / 64) as char, (0x80 + c % 64) as char]
    else if c < 0x10000 then
      [(0xE0 + c / 4096) as char, (0x80 + c / 64 % 64) as char, (0x80 + c % 64) as char]
    else
      [(0xF0 + c / 262144) as char, (0x80 + c / 4096 % 64) as char,
       (0x80 + c / 64 % 64) as char, (0x80 + c % 64) as char]
  }

  predicate AllScalar(cs: seq<int>) {
    forall c :: c in cs ==> IsScalar(c)
  }

  function Encoded(cs: seq<int>): string
    requires AllScalar(cs)
  {
    if cs == [] then "" else Bytes(cs[0]) + Encoded(cs[1..])
  }

  // ----- one character -----

  lemma OneByte(c: int, rest: string)
    requires 0 <= c < 0x80
    ensures RuneLength(Bytes(c) + rest) == 1
  {
  }

  lemma TwoBytes(c: int, rest: string)
    requires 0x80 <= c < 0x800
    ensures RuneLength(Bytes(c) + rest) == 2
  {
    var s := Bytes(c) + rest;
    assert s[0] as int == 0xC0 + c / 64 && s[1] as int == 0x80 + c % 64;
  }

  lemma ThreeBytes(c: int, rest: string)
    requires 0x800 <= c < 0x10000 && IsScalar(c)
    ensures RuneLength(Bytes(c) + rest) == 3
  {
    var s := Bytes(c) + rest;
    var a, b := c / 4096, c / 64 % 64;
    assert s[0] as int == 0xE0 + a && s[1] as int == 0x80 + b && s[2] as int == 0x80 + c % 64;
    assert c / 64 == a * 64 + b;
  }

  lemma FourBytes(c: int, rest: string)
    requires 0x10000 <= c && IsScalar(c)
    ensures RuneLength(Bytes(c) + rest) == 4
  {
    var s := Bytes(c) + rest;
    var a, b := c / 262144, c / 4096 % 64;
    assert s[0] as int == 0xF0 + a && s[1] as int == 0x80 + b;
    assert s[2] as int == 0x80 + c / 64 % 64 && s[3] as int == 0x80 + c % 64;
    assert c / 4096 == a * 64 + b;
  }

  lemma BytesAreRune(c: int, rest: string)
    requires IsScalar(c)
    ensures RuneLength(Bytes(c) + rest) == |Bytes(c)|
  {
    if c < 0x80 { OneByte(c, rest); }
    else if c < 0x800 { TwoBytes(c, rest); }
    else if c < 0x10000 { ThreeBytes(c, rest); }
    else { FourBytes(c, rest); }
  }

  /** Two, three and four bytes taken together. */
  lemma PairIs(a: int, b: int)
    requires 2 <= a < 32 && 0 <= b < 64
    ensures var c := a * 64 + b; 0x80 <= c < 0x800 && c / 64 == a && c % 64 == b
  {
  }

  lemma TripleIs(a: int, b: int, d: int)
    requires 0 <= a < 16 && 0 <= b < 64 && 0 <= d < 64
    ensures var c := a * 4096 + b * 64 + d; c / 4096 == a && c / 64 % 64 == b && c % 64 == d
  {
    var c := a * 4096 + b * 64 + d;
    assert c / 64 == a * 64 + b;
  }

  lemma QuadrupleIs(a: int, b: int, d: int, e: int)
    requires 0 <= a < 8 && 0 <= b < 64 && 0 <= d < 64 && 0 <= e < 64
    ensures var c := a * 262144 + b * 4096 + d * 64 + e;
            c / 262144 == a && c / 4096 % 64 == b && c / 64 % 64 == d && c % 64 == e
  {
    var c := a * 262144 + b * 4096 + d * 64 + e;
    assert c / 64 == a * 4096 + b * 64 + d && c / 4096 == a * 64 + b;
  }

  lemma RuneIsBytes(s: string) returns (c: int)
    requires RuneLength(s) > 0
    ensures IsScalar(c) && Bytes(c) == s[..RuneLength(s)]
  {
    var n := RuneLength(s);
    var a := s[0] as int;
    if n == 1 {
      c := a;
    } else if n == 2 {
      c := TwoByteRune(s);
    } else if n == 3 {
      c := ThreeByteRune(s);
    } else {
      c := FourByteRune(s);
    }
  }

  lemma TwoByteRune(s: string) returns (c: int)
    requires RuneLength(s) == 2
    ensures IsScalar(c) && Bytes(c) == s[..2]
  {
    var a, b := s[0] as int - 0xC0, s[1] as int - 0x80;
    PairIs(a, b);
    c := a * 64 + b;
  }

  lemma ThreeByteRune(s: string) returns (c: int)
    requires RuneLength(s) == 3
    ensures IsScalar(c) && Bytes(c) == s[..3]
  {
    var a, b, d := s[0] as int - 0xE0, s[1] as int - 0x80, s[2] as int - 0x80;
    TripleIs(a, b, d);
    c := a * 4096 + b * 64 + d;
  }

  lemma FourByteRune(s: string) returns (c: int)
    requires RuneLength(s) == 4
    ensures IsScalar(c) && Bytes(c) == s[..4]
  {
    var a, b, d, e := s[0] as int - 0xF0, s[1] as int - 0x80, s[2] as int - 0x80, s[3] as int - 0x80;
    QuadrupleIs(a, b, d, e);
    c := a * 262144 + b * 4096 + d * 64 + e;
  }

  // ----- a text -----

  lemma {:induction false} EncodedIsValid(cs: seq<int>)
    requires AllScalar(cs)
    ensures ValidUtf8(Encoded(cs))
  {
    if cs != [] {
      var rest := Encoded(cs[1..]);
      assert cs[0] in cs && AllScalar(cs[1..]);
      EncodedIsValid(cs[1..]);
      BytesAreRune(cs[0], rest);
      assert (Bytes(cs[0]) + rest)[|Bytes(cs[0])|..] == rest;
    }
  }

  lemma {:induction false} ValidIsEncoded(s: string) returns (cs: seq<int>)
    requires ValidUtf8(s)
    ensures AllScalar(cs) && Encoded(cs) == s
    decreases |s|
  {
    if s == "" { return []; }
    var n := RuneLength(s);
    var c := RuneIsBytes(s);
    var rest := ValidIsEncoded(s[n..]);
    EncodedMore(c, rest);
    cs := [c] + rest;
    assert s == s[..n] + s[n..];
  }

  lemma EncodedMore(c: int, rest: seq<int>)
    requires IsScalar(c) && AllScalar(rest)
    ensures AllScalar([c] + rest) && Encoded([c] + rest) == Bytes(c) + Encoded(rest)
  {
    assert ([c] + rest)[1..] == rest;
  }

  /** A text is valid exactly when it is the UTF-8 of some characters. */
  lemma ValidUtf8Exact(s: string)
    ensures ValidUtf8(s) <==> exists cs :: AllScalar(cs) && Encoded(cs) == s
  {
    if ValidUtf8(s) { var cs := ValidIsEncoded(s); }
    if cs :| AllScalar(cs) && Encoded(cs) == s { EncodedIsValid(cs); }
  }

  // ----- white space -----

  /** The white space characters: those of ASCII, U+0085, U+00A0, and the spaces and separators of Unicode. */
  lemma SpacesExact(c: int)
    requires IsScalar(c)
    ensures IsSpace(Bytes(c)) <==>
              || 9 <= c <= 13 || c == 0x20 || c == 0x85 || c == 0xA0 || c == 0x1680 || 0x2000 <= c <= 0x200A
              || c == 0x2028 || c == 0x2029 || c == 0x202F || c == 0x205F || c == 0x3000
  {
    if 0x800 <= c < 0x10000 {
      var a, b, d := c / 4096, c / 64 % 64, c % 64;
      assert c == a * 4096 + b * 64 + d;
    }
  }

  /** The first k bytes are a white space character, or the last k. */
  predicate SpaceFirst(s: string, k: nat) {
    1 <= k <= 3 && k <= |s| && IsSpace(s[..k])
  }

  predicate SpaceLast(s: string, k: nat) {
    1 <= k <= 3 && k <= |s| && IsSpace(s[|s| - k..])
  }

  /** Nothing but white space characters. */
  ghost predicate Blank(s: string)
    decreases |s|
  {
    s == "" || exists k: nat :: SpaceFirst(s, k) && Blank(s[k..])
  }

  lemma OneSpaceIsBlank(s: string)
    requires 1 <= |s| <= 3 && IsSpace(s)
    ensures Blank(s)
  {
    assert s[..|s|] == s && s[|s|..] == "";
    assert SpaceFirst(s, |s|) && Blank(s[|s|..]);
  }

  lemma SpaceInFront(a: string, k: nat, b: string)
    requires SpaceFirst(a, k)
    ensures SpaceFirst(a + b, k) && (a + b)[k..] == a[k..] + b
  {
    assert (a + b)[..k] == a[..k];
  }

  lemma {:induction false} BlankConcat(a: string, b: string)
    requires Blank(a) && Blank(b)
    ensures Blank(a + b)
    decreases |a|
  {
    if a == "" {
      ConcatNothing(b);
    } else {
      var k: nat :| SpaceFirst(a, k) && Blank(a[k..]);
      BlankConcat(a[k..], b);
      SpaceInFront(a, k, b);
    }
  }

  /** The length of the white space character a text starts with, 0 for none; and of the one it ends with. */
  function SpaceHead(s: string): (k: nat)
    ensures k > 0 ==> SpaceFirst(s, k)
    ensures k == 0 ==> !SpaceFirst(s, 1) && !SpaceFirst(s, 2) && !SpaceFirst(s, 3)
  {
    if SpaceFirst(s, 1) then 1 else if SpaceFirst(s, 2) then 2 else if SpaceFirst(s, 3) then 3 else 0
  }

  function SpaceTail(s: string): (k: nat)
    ensures k > 0 ==> SpaceLast(s, k)
    ensures k == 0 ==> !SpaceLast(s, 1) && !SpaceLast(s, 2) && !SpaceLast(s, 3)
  {
    if SpaceLast(s, 1) then 1 else if SpaceLast(s, 2) then 2 else if SpaceLast(s, 3) then 3 else 0
  }

  lemma TrimLeftOnce(s: string)
    ensures TrimLeft(s) == if SpaceHead(s) == 0 then s else TrimLeft(s[SpaceHead(s)..])
  {
  }

  lemma TrimRightOnce(s: string)
    ensures TrimRight(s) == if SpaceTail(s) == 0 then s else TrimRight(s[..|s| - SpaceTail(s)])
  {
    if SpaceLast(s, 1) {
      assert SpaceTail(s) == 1;
    } else if SpaceLast(s, 2) {
      assert SpaceTail(s) == 2;
    } else if SpaceLast(s, 3) {
      assert SpaceTail(s) == 3;
    } else {
      assert SpaceTail(s) == 0;
    }
  }

  lemma {:induction false} TrimLeftCuts(s: string) returns (n: nat)
    ensures n <= |s| && TrimLeft(s) == s[n..] && Blank(s[..n])
    ensures SpaceHead(TrimLeft(s)) == 0
    decreases |s|
  {
    var k := SpaceHead(s);
    TrimLeftOnce(s);
    if k == 0 { return 0; }
    var rest := s[k..];
    var m := TrimLeftCuts(rest);
    n := k + m;
    assert s[..n] == s[..k] + rest[..m] && s[n..] == rest[m..];
    OneSpaceIsBlank(s[..k]);
    BlankConcat(s[..k], rest[..m]);
  }

  lemma {:induction false} TrimRightCuts(s: string) returns (n: nat)
    ensures n <= |s| && TrimRight(s) == s[..n] && Blank(s[n..])
    ensures SpaceTail(TrimRight(s)) == 0
    decreases |s|
  {
    var k := SpaceTail(s);
    TrimRightOnce(s);
    if k == 0 { return |s|; }
    var front, last := s[..|s| - k], s[|s| - k..];
    n := TrimRightCuts(front);
    assert s[n..] == front[n..] + last && s[..n] == front[..n];
    OneSpaceIsBlank(last);
    BlankConcat(front[n..], last);
  }

  /** No white space character, which has one to three bytes, at either end. */
  predicate Trimmed(s: string) {
    && !SpaceFirst(s, 1) && !SpaceFirst(s, 2) && !SpaceFirst(s, 3)
    && !SpaceLast(s, 1) && !SpaceLast(s, 2) && !SpaceLast(s, 3)
  }

  lemma SpaceOfPrefix(s: string, m: nat, k: nat)
    requires m <= |s| && SpaceFirst(s[..m], k)
    ensures SpaceFirst(s, k)
  {
    assert s[..m][..k] == s[..k];
  }

  lemma PrefixStartsTrimmed(s: string, m: nat)
    requires m <= |s| && SpaceHead(s) == 0
    ensures SpaceHead(s[..m]) == 0
  {
    if SpaceHead(s[..m]) > 0 { SpaceOfPrefix(s, m, SpaceHead(s[..m])); }
  }

  lemma TrimmedEnds(s: string)
    requires SpaceHead(s) == 0 && SpaceTail(s) == 0
    ensures Trimmed(s)
  {
  }

  lemma ThreeParts(s: string, n: nat, rest: string, m: nat)
    requires n <= |s| && rest == s[n..] && m <= |rest|
    ensures s == s[..n] + rest[..m] + rest[m..]
  {
  }

  /** Trimming takes white space off both ends, all of it and nothing else. */
  lemma TrimExact(s: string) returns (left: string, right: string)
    ensures s == left + TrimSpace(s) + right && Blank(left) && Blank(right) && Trimmed(TrimSpace(s))
  {
    var n := TrimLeftCuts(s);
    var rest := TrimLeft(s);
    var m := TrimRightCuts(rest);
    left, right := s[..n], rest[m..];
    ThreeParts(s, n, rest, m);
    PrefixStartsTrimmed(rest, m);
    TrimmedEnds(TrimSpace(s));
  }
}
