/** Base 64 with padding in the alphabets of sections 4 and 5 of RFC 4648; strings are bytes. */
module Base64 {
  import opened Results

  datatype Alphabet = Standard | UrlSafe

  predicate IsBytes(s: string) {
    forall k :: 0 <= k < |s| ==> s[k] as int < 256
  }

  function Symbol(a: Alphabet, v: nat): (c: char)
    requires v < 64
    ensures c as int < 128 && c != '=' && c != '\r' && c != '\n' && c != '%'
  {
    if v < 26 then (v + 'A' as int) as char
    else if v < 52 then (v - 26 + 'a' as int) as char
    else if v < 62 then (v - 52 + '0' as int) as char
    else if v == 62 then (if a.Standard? then '+' else '-')
    else if a.Standard? then '/' else '_'
  }

  function Sextet(a: Alphabet, c: char): (v: Option<nat>)
    ensures v.Some? ==> v.value < 64
  {
    if 'A' <= c <= 'Z' then Some(c as int - 'A' as int)
    else if 'a' <= c <= 'z' then Some(c as int - 'a' as int + 26)
    else if '0' <= c <= '9' then Some(c as int - '0' as int + 52)
    else if c == (if a.Standard? then '+' else '-') then Some(62)
    else if c == (if a.Standard? then '/' else '_') then Some(63)
    else None
  }

  /** Three bytes as four symbols; a last group of one or two bytes is padded. */
  function Encode(a: Alphabet, s: string): string
    requires IsBytes(s)
  {
    if s == "" then ""
    else
      var b0 := s[0] as int;
      if |s| == 1 then [Symbol(a, b0 / 4), Symbol(a, b0 % 4 * 16), '=', '=']
      else
        var b1 := s[1] as int;
        if |s| == 2 then [Symbol(a, b0 / 4), Symbol(a, b0 % 4 * 16 + b1 / 16), Symbol(a, b1 % 16 * 4), '=']
        else
          var b2 := s[2] as int;
          [Symbol(a, b0 / 4), Symbol(a, b0 % 4 * 16 + b1 / 16), Symbol(a, b1 % 16 * 4 + b2 / 64), Symbol(a, b2 % 64)]
          + Encode(a, s[3..])
  }

  function First(v0: nat, v1: nat): char
    requires v0 < 64 && v1 < 64
  {
    (v0 * 4 + v1 / 16) as char
  }

  function Second(v1: nat, v2: nat): char
    requires v1 < 64 && v2 < 64
  {
    (v1 % 16 * 16 + v2 / 4) as char
  }

  function Third(v2: nat, v3: nat): char
    requires v2 < 64 && v3 < 64
  {
    (v2 % 4 * 64 + v3) as char
  }

  /** Decode text without line breaks; bits left over before padding are ignored. */
  function DecodeQuanta(a: Alphabet, s: string): Option<string> {
    if s == "" then Some("")
    else if |s| < 4 then None
    else
      match (Sextet(a, s[0]), Sextet(a, s[1]), Sextet(a, s[2]), Sextet(a, s[3]))
      case (Some(v0), Some(v1), Some(v2), Some(v3)) =>
        (match DecodeQuanta(a, s[4..])
         case Some(rest) => Some([First(v0, v1), Second(v1, v2), Third(v2, v3)] + rest)
         case None => None)
      case (Some(v0), Some(v1), Some(v2), None) =>
        if s[3] == '=' && |s| == 4 then Some([First(v0, v1), Second(v1, v2)]) else None
      case (Some(v0), Some(v1), None, _) =>
        if s[2] == '=' && s[3] == '=' && |s| == 4 then Some([First(v0, v1)]) else None
      case _ => None
  }

  function WithoutBreaks(s: string): string {
    if s == "" then ""
    else (if s[0] == '\r' || s[0] == '\n' then "" else [s[0]]) + WithoutBreaks(s[1..])
  }

  /** Decode padded text, ignoring line breaks. */
  function Decode(a: Alphabet, s: string): Option<string> {
    DecodeQuanta(a, WithoutBreaks(s))
  }

  function Pads(n: nat): string {
    seq(n, _ => '=')
  }

  function Unpadded(s: string): string {
    if s != "" && s[|s| - 1] == '=' then Unpadded(s[..|s| - 1]) else s
  }

  lemma Packed16(q: nat, r: nat)
    requires r < 16
    ensures (q * 16 + r) / 16 == q && (q * 16 + r) % 16 == r
  {
  }

  lemma Packed4(q: nat, r: nat)
    requires r < 4
    ensures (q * 4 + r) / 4 == q && (q * 4 + r) % 4 == r
  {
  }

  lemma FirstOfSextets(b0: nat, r: nat)
    requires b0 < 256 && r < 16
    ensures First(b0 / 4, b0 % 4 * 16 + r) == b0 as char
  {
    Packed16(b0 % 4, r);
  }

  lemma SecondOfSextets(q: nat, b1: nat, r: nat)
    requires q < 4 && b1 < 256 && r < 4
    ensures Second(q * 16 + b1 / 16, b1 % 16 * 4 + r) == b1 as char
  {
    Packed16(q, b1 / 16);
    Packed4(b1 % 16, r);
  }

  lemma ThirdOfSextets(q: nat, b2: nat)
    requires q < 16 && b2 < 256
    ensures Third(q * 4 + b2 / 64, b2 % 64) == b2 as char
  {
    Packed4(q, b2 / 64);
  }

  /** The symbol of v, read by b, is v; only the other alphabet may not know it. */
  predicate Reads(a: Alphabet, b: Alphabet, v: nat)
    requires v < 64
  {
    Sextet(b, Symbol(a, v)) == Some(v) || (a != b && Sextet(b, Symbol(a, v)) == None)
  }

  lemma AlwaysReads(a: Alphabet, b: Alphabet, v: nat)
    requires v < 64
    ensures Reads(a, b, v)
  {
  }

  predicate Inverts(a: Alphabet, b: Alphabet, s: string)
    requires IsBytes(s)
  {
    DecodeQuanta(b, Encode(a, s)) == Some(s) || (a != b && DecodeQuanta(b, Encode(a, s)) == None)
  }

  lemma OneByte(a: Alphabet, b: Alphabet, s: string)
    requires IsBytes(s) && |s| == 1
    ensures Inverts(a, b, s)
  {
    var b0 := s[0] as int;
    AlwaysReads(a, b, b0 / 4);
    AlwaysReads(a, b, b0 % 4 * 16);
    FirstOfSextets(b0, 0);
    assert s == [s[0]];
  }

  lemma TwoBytes(a: Alphabet, b: Alphabet, s: string)
    requires IsBytes(s) && |s| == 2
    ensures Inverts(a, b, s)
  {
    var b0, b1 := s[0] as int, s[1] as int;
    AlwaysReads(a, b, b0 / 4);
    AlwaysReads(a, b, b0 % 4 * 16 + b1 / 16);
    AlwaysReads(a, b, b1 % 16 * 4);
    FirstOfSextets(b0, b1 / 16);
    SecondOfSextets(b0 % 4, b1, 0);
    assert s == [s[0], s[1]];
  }

  lemma EncodeGroup(a: Alphabet, s: string)
    requires IsBytes(s) && |s| >= 3
    ensures var b0, b1, b2 := s[0] as int, s[1] as int, s[2] as int;
            Encode(a, s)
            == [Symbol(a, b0 / 4), Symbol(a, b0 % 4 * 16 + b1 / 16),
                Symbol(a, b1 % 16 * 4 + b2 / 64), Symbol(a, b2 % 64)]
                            + Encode(a, s[3..])
  {
  }

  /** A first group that is no padding decodes on its own. */
  lemma DecodeGroup(a: Alphabet, c0: char, c1: char, c2: char, c3: char, rest: string)
    requires c2 != '=' && c3 != '='
    ensures DecodeQuanta(a, [c0, c1, c2, c3] + rest)
            == match (Sextet(a, c0), Sextet(a, c1), Sextet(a, c2), Sextet(a, c3), DecodeQuanta(a, rest))
               case (Some(v0), Some(v1), Some(v2), Some(v3), Some(t)) =>
                   Some([First(v0, v1), Second(v1, v2), Third(v2, v3)] + t)
               case _ => None
  {
    var s := [c0, c1, c2, c3] + rest;
    assert s[4..] == rest;
  }

  /** Four values under 64 that stand for the bytes of a group. */
  predicate Packs(v0: int, v1: int, v2: int, v3: int, b0: char, b1: char, b2: char) {
    && 0 <= v0 < 64 && 0 <= v1 < 64 && 0 <= v2 < 64 && 0 <= v3 < 64
    && First(v0, v1) == b0 && Second(v1, v2) == b1 && Third(v2, v3) == b2
  }

  lemma GroupPacks(a: Alphabet, s: string) returns (v0: nat, v1: nat, v2: nat, v3: nat)
    requires IsBytes(s) && |s| >= 3
    ensures Packs(v0, v1, v2, v3, s[0], s[1], s[2])
    ensures Encode(a, s) == [Symbol(a, v0), Symbol(a, v1), Symbol(a, v2), Symbol(a, v3)] + Encode(a, s[3..])
  {
    var b0, b1, b2 := s[0] as int, s[1] as int, s[2] as int;
    FirstOfSextets(b0, b1 / 16);
    SecondOfSextets(b0 % 4, b1, b2 / 64);
    ThirdOfSextets(b1 % 16, b2);
    EncodeGroup(a, s);
    v0, v1, v2, v3 := b0 / 4, b0 % 4 * 16 + b1 / 16, b1 % 16 * 4 + b2 / 64, b2 % 64;
  }

  lemma GroupDecodes(
    a: Alphabet, b: Alphabet, v0: nat, v1: nat, v2: nat, v3: nat, b0: char, b1: char, b2: char, tail: string,
    rest: string)
    requires Packs(v0, v1, v2, v3, b0, b1, b2)
    requires DecodeQuanta(b, tail) == Some(rest) || (a != b && DecodeQuanta(b, tail) == None)
    ensures var d := DecodeQuanta(b, [Symbol(a, v0), Symbol(a, v1), Symbol(a, v2), Symbol(a, v3)] + tail);
            d == Some([b0, b1, b2] + rest) || (a != b && d == None)
  {
    AlwaysReads(a, b, v0);
    AlwaysReads(a, b, v1);
    AlwaysReads(a, b, v2);
    AlwaysReads(a, b, v3);
    DecodeGroup(b, Symbol(a, v0), Symbol(a, v1), Symbol(a, v2), Symbol(a, v3), tail);
  }

  lemma MoreBytes(a: Alphabet, b: Alphabet, s: string)
    requires IsBytes(s) && |s| >= 3 && Inverts(a, b, s[3..])
    ensures Inverts(a, b, s)
  {
    var v0, v1, v2, v3 := GroupPacks(a, s);
    GroupDecodes(a, b, v0, v1, v2, v3, s[0], s[1], s[2], Encode(a, s[3..]), s[3..]);
    assert s == [s[0], s[1], s[2]] + s[3..];
  }

  lemma {:induction false} QuantaAcross(a: Alphabet, b: Alphabet, s: string)
    requires IsBytes(s)
    ensures Inverts(a, b, s)
  {
    if |s| == 1 {
      OneByte(a, b, s);
    } else if |s| == 2 {
      TwoBytes(a, b, s);
    } else if |s| > 2 {
      QuantaAcross(a, b, s[3..]);
      MoreBytes(a, b, s);
    }
  }

  lemma {:induction false} NoBreaks(s: string)
    requires AllPlain(s)
    ensures WithoutBreaks(s) == s
  {
    if s != "" { NoBreaks(s[1..]); }
  }

  /** A symbol of either alphabet, or padding. */
  predicate Plain(c: char) {
    c as int < 128 && c != '\r' && c != '\n' && c != '%'
  }

  predicate AllPlain(s: string) {
    forall k :: 0 <= k < |s| ==> Plain(s[k])
  }

  lemma EncodeMore(a: Alphabet, s: string)
    requires IsBytes(s) && |s| >= 3
    ensures |Encode(a, s)| == 4 + |Encode(a, s[3..])| && Encode(a, s)[4..] == Encode(a, s[3..])
    ensures AllPlain(Encode(a, s)[..4]) && Encode(a, s)[3] != '='
  {
  }

  lemma {:induction false} EncodingPlain(a: Alphabet, s: string)
    requires IsBytes(s)
    ensures |Encode(a, s)| % 4 == 0 && (Encode(a, s) == "" <==> s == "") && AllPlain(Encode(a, s))
  {
    if |s| > 2 {
      EncodingPlain(a, s[3..]);
      EncodeMore(a, s);
      var e := Encode(a, s);
      assert e == e[..4] + e[4..];
    }
  }

  /** Three bytes and their four symbols are the same 24 bits. */
  lemma SameBits(a: Alphabet, s: string) returns (v0: nat, v1: nat, v2: nat, v3: nat)
    requires IsBytes(s) && |s| >= 3
    ensures v0 < 64 && v1 < 64 && v2 < 64 && v3 < 64
    ensures |Encode(a, s)| >= 4 && Encode(a, s)[..4] == [Symbol(a, v0), Symbol(a, v1), Symbol(a, v2), Symbol(a, v3)]
    ensures v0 * 262144 + v1 * 4096 + v2 * 64 + v3 == s[0] as int * 65536 + s[1] as int * 256 + s[2] as int
  {
    var b0, b1, b2 := s[0] as int, s[1] as int, s[2] as int;
    v0, v1, v2, v3 := b0 / 4, b0 % 4 * 16 + b1 / 16, b1 % 16 * 4 + b2 / 64, b2 % 64;
  }

  /** The symbols in order, by their ASCII codes; the alphabets differ in the last two. */
  lemma SymbolCodes(a: Alphabet, v: nat)
    requires v < 64
    ensures Symbol(a, v) as int ==
            if v <= 25 then 65 + v
            else if v <= 51 then 71 + v
            else if v <= 61 then v - 4
            else if v == 62 then (if a.Standard? then 43 else 45)
            else (if a.Standard? then 47 else 95)
  {
  }

  /** Test vectors of section 10 of RFC 4648. */
  lemma TestVectors()
    ensures Encode(Standard, "f") == "Zg==" && Encode(Standard, "fo") == "Zm8=" && Encode(Standard, "foo") == "Zm9v"
  {
    assert "foo"[3..] == "";
  }

  lemma LongTestVector()
    ensures Encode(Standard, "foobar") == "Zm9v" + "YmFy"
  {
    assert "foobar"[3..] == "bar" && "bar"[3..] == "";
    assert Encode(Standard, "bar") == "YmFy";
  }

  /** How much padding a text of n bytes needs. */
  function Padding(n: nat): (p: nat)
    ensures p <= 2
  {
    (3 - n % 3) % 3
  }

  lemma {:induction false} UnpaddedBefore(body: string, n: nat)
    requires body != "" && body[|body| - 1] != '='
    ensures Unpadded(body + Pads(n)) == body
  {
    if n == 0 {
      assert body + Pads(n) == body;
    } else {
      assert (body + Pads(n))[..|body| + n - 1] == body + Pads(n - 1);
      UnpaddedBefore(body, n - 1);
    }
  }

  /** e ends in p padding characters and a symbol before them. */
  predicate EndsPadded(e: string, p: nat) {
    p < |e| && e[|e| - p - 1] != '=' && e[|e| - p..] == Pads(p)
  }

  lemma EndsPaddedBehind(e: string, tail: string, p: nat)
    requires |e| >= 4 && e[4..] == tail && EndsPadded(tail, p)
    ensures EndsPadded(e, p)
  {
    assert tail[|tail| - p..] == e[|e| - p..];
  }

  lemma PaddingMore(n: nat)
    requires n >= 3
    ensures Padding(n) == Padding(n - 3)
  {
  }

  lemma ShortTail(a: Alphabet, s: string)
    requires IsBytes(s) && 0 < |s| < 3
    ensures EndsPadded(Encode(a, s), Padding(|s|))
  {
  }

  /** Only the last symbols of an encoding are padding, as many as the length of the text asks for. */
  lemma {:induction false} EncodingTail(a: Alphabet, s: string)
    requires IsBytes(s) && s != ""
    ensures EndsPadded(Encode(a, s), Padding(|s|))
  {
    if |s| < 3 {
      ShortTail(a, s);
    } else {
      EncodeMore(a, s);
      if |s| > 3 {
        EncodingTail(a, s[3..]);
        PaddingMore(|s|);
        EndsPaddedBehind(Encode(a, s), Encode(a, s[3..]), Padding(|s|));
      }
    }
  }

  lemma EncodingPadding(a: Alphabet, s: string)
    requires IsBytes(s)
    ensures Encode(a, s) == Unpadded(Encode(a, s)) + Pads(Padding(|s|))
  {
    if s != "" {
      var e, p := Encode(a, s), Padding(|s|);
      EncodingTail(a, s);
      UnpaddedBefore(e[..|e| - p], p);
      assert e == e[..|e| - p] + Pads(p);
    }
  }

  /** Decoding inverts encoding; with the other alphabet it inverts it or fails. */
  lemma DecodeInvertsEncode(a: Alphabet, b: Alphabet, s: string)
    requires IsBytes(s)
    ensures Decode(a, Encode(a, s)) == Some(s)
    ensures Decode(b, Encode(a, s)) == Some(s) || Decode(b, Encode(a, s)) == None
  {
    EncodingPlain(a, s);
    NoBreaks(Encode(a, s));
    QuantaAcross(a, a, s);
    QuantaAcross(a, b, s);
  }
}
