/** The transport form of a search: sort field, direction, offset, count and base64 expression, between slashes. */
module FilterTransport {
  import opened Results
  import opened Texts
  import opened Base64

  datatype DateInterval = DateInterval(start: int, end: int)

  datatype Search = Search(
    offset: int,
    count: int,
    sortField: string,
    descending: bool,
    expression: string,
    interval: Option<DateInterval>,
    callId: string)

  const DEFAULTS: Search := Search(0, 50, "start_time", true, "", None, "")

  // ----- text -----

  predicate AllDigits(s: string) {
    forall k :: 0 <= k < |s| ==> '0' <= s[k] <= '9'
  }

  function DigitsValue(s: string): nat
    requires AllDigits(s)
  {
    if s == "" then 0 else DigitsValue(s[..|s| - 1]) * 10 + (s[|s| - 1] as int - '0' as int)
  }

  /** An optional sign and digits, within 64 bits. */
  function Atoi(s: string): Option<int> {
    var body := if s != "" && (s[0] == '-' || s[0] == '+') then s[1..] else s;
    if body == "" || !AllDigits(body) then None
    else
      var n: int := DigitsValue(body);
      var v := if s[0] == '-' then -n else n;
      if IsInt64(v) then Some(v) else None
  }

  function SafeInt(s: string, fallback: int): int {
    match Atoi(s) case Some(v) => v case None => fallback
  }

  /** Every "%2F", from the left, as a slash. */
  function UnescapeSlashes(s: string): string {
    if |s| >= 3 && s[..3] == "%2F" then "/" + UnescapeSlashes(s[3..])
    else if s == "" then ""
    else [s[0]] + UnescapeSlashes(s[1..])
  }

  /** The position of the first slash, or the length. */
  function FirstSlash(s: string): (n: nat)
    ensures n <= |s| && '/' !in s[..n] && (n < |s| ==> s[n] == '/')
  {
    if s == "" || s[0] == '/' then 0 else FirstSlash(s[1..]) + 1
  }

  /** The parts between the first n - 1 slashes and the rest. */
  function SplitN(s: string, n: nat): (parts: seq<string>)
    requires n >= 1
    ensures 1 <= |parts| <= n
  {
    var k := FirstSlash(s);
    if n == 1 || k == |s| then [s] else [s[..k]] + SplitN(s[k + 1..], n - 1)
  }

  predicate Between(lo: int, c: char, hi: int) {
    lo <= c as int <= hi
  }

  predicate Continues(c: char) {
    Between(0x80, c, 0xBF)
  }

  /** The length of the character a text of bytes starts with; 0 if it starts with none. */
  function RuneLength(s: string): (n: nat)
    ensures n <= |s|
  {
    if s == "" then 0
    else if Between(0, s[0], 0x7F) then 1
    else if |s| >= 2 && Between(0xC2, s[0], 0xDF) && Continues(s[1]) then 2
    else if |s| >= 3 && ThreeByteLead(s[0], s[1]) && Continues(s[2]) then 3
    else if |s| >= 4 && FourByteLead(s[0], s[1]) && Continues(s[2]) && Continues(s[3]) then 4
    else 0
  }

  /** Neither overlong nor a surrogate. */
  predicate ThreeByteLead(a: char, b: char) {
    || (a as int == 0xE0 && Between(0xA0, b, 0xBF))
    || ((Between(0xE1, a, 0xEC) || Between(0xEE, a, 0xEF)) && Continues(b))
    || (a as int == 0xED && Between(0x80, b, 0x9F))
  }

  /** Neither overlong nor past U+10FFFF. */
  predicate FourByteLead(a: char, b: char) {
    || (a as int == 0xF0 && Between(0x90, b, 0xBF))
    || (Between(0xF1, a, 0xF3) && Continues(b))
    || (a as int == 0xF4 && Between(0x80, b, 0x8F))
  }

  predicate ValidUtf8(s: string) {
    s == "" || (RuneLength(s) > 0 && ValidUtf8(s[RuneLength(s)..]))
  }

  /** One white space character, as its bytes. */
  predicate IsSpace(s: string) {
    || (|s| == 1 && (Between(9, s[0], 13) || s[0] == ' '))
    || (|s| == 2 && s[0] as int == 0xC2 && (s[1] as int == 0x85 || s[1] as int == 0xA0))
    || (|s| == 3 && WideSpace(s[0] as int, s[1] as int, s[2] as int))
  }

  /** U+1680, U+2000 to U+200A, U+2028, U+2029, U+202F, U+205F and U+3000. */
  predicate WideSpace(a: int, b: int, c: int) {
    || (a == 0xE1 && b == 0x9A && c == 0x80)
    || (a == 0xE2 && b == 0x80 && (0x80 <= c <= 0x8A || c == 0xA8 || c == 0xA9 || c == 0xAF))
    || (a == 0xE2 && b == 0x81 && c == 0x9F)
    || (a == 0xE3 && b == 0x80 && c == 0x80)
  }

  function TrimLeft(s: string): string {
    if |s| >= 1 && IsSpace(s[..1]) then TrimLeft(s[1..])
    else if |s| >= 2 && IsSpace(s[..2]) then TrimLeft(s[2..])
    else if |s| >= 3 && IsSpace(s[..3]) then TrimLeft(s[3..])
    else s
  }

  function TrimRight(s: string): string {
    if |s| >= 1 && IsSpace(s[|s| - 1..]) then TrimRight(s[..|s| - 1])
    else if |s| >= 2 && IsSpace(s[|s| - 2..]) then TrimRight(s[..|s| - 2])
    else if |s| >= 3 && IsSpace(s[|s| - 3..]) then TrimRight(s[..|s| - 3])
    else s
  }

  function TrimSpace(s: string): string {
    TrimRight(TrimLeft(s))
  }

  // ----- the base64 expression -----

  /** The text a token decodes to in one alphabet, if it is text. */
  function TextIn(a: Alphabet, padded: string): Option<string> {
    match Decode(a, padded)
    case Some(b) => if ValidUtf8(b) then Some(b) else None
    case None => None
  }

  function Padded(token: string): string {
    token + Pads((4 - |token| % 4) % 4)
  }

  function DecodeText(token: string): string {
    match TextIn(Standard, Padded(token))
    case Some(b) => b
    case None => match TextIn(UrlSafe, Padded(token)) case Some(b) => b case None => ""
  }

  /** The decoder tries the alphabets in turn. */
  method B64DecodeText(token: string) returns (text: string)
    ensures text == DecodeText(token)
  {
    var padding := (4 - |token| % 4) % 4;
    var padded := token + Pads(padding);
    var alphabets := [Standard, UrlSafe];
    for i := 0 to |alphabets|
      invariant i > 0 ==> TextIn(Standard, padded) == None
      invariant i > 1 ==> TextIn(UrlSafe, padded) == None
    {
      assert alphabets[i] == if i == 0 then Standard else UrlSafe;
      var b := Decode(alphabets[i], padded);
      if b.Some? && ValidUtf8(b.value) { return b.value; }
    }
    return "";
  }

  lemma PadsMissing(n: nat, p: nat)
    requires n % 4 == 0 && p <= 2 && p <= n
    ensures (4 - (n - p) % 4) % 4 == p
  {
  }

  lemma PaddedUnpadded(a: Alphabet, t: string)
    requires IsBytes(t)
    ensures Padded(Encode(a, t)) == Encode(a, t)
    ensures Padded(Unpadded(Encode(a, t))) == Encode(a, t)
  {
    EncodingPlain(a, t);
    EncodingPadding(a, t);
    var e, u, p := Encode(a, t), Unpadded(Encode(a, t)), Padding(|t|);
    PadsMissing(|e|, 0);
    PadsMissing(|e|, p);
    NoPads(e);
  }

  lemma NoPads(e: string)
    ensures e + Pads(0) == e
  {
  }

  /** Either alphabet, padded or not: the decoder gives back exactly the text that is valid UTF-8. */
  lemma DecodeTextInverts(a: Alphabet, t: string)
    requires IsBytes(t)
    ensures DecodeText(Encode(a, t)) == if ValidUtf8(t) then t else ""
    ensures DecodeText(Unpadded(Encode(a, t))) == if ValidUtf8(t) then t else ""
  {
    PaddedUnpadded(a, t);
    DecodeInvertsEncode(a, Standard, t);
    DecodeInvertsEncode(a, UrlSafe, t);
  }

  // ----- the transport form -----

  function Image(f: Search): string
    requires IsBytes(f.expression)
  {
    f.sortField + "/" + (if f.descending then "desc" else "asc") + "/" + FormatInt(f.offset) + "/" + FormatInt(f.count)
    + if f.expression == "" then "" else "/" + Encode(Standard, f.expression)
  }

  function ParseInto(f: Search, image: string): Search {
    var tokens := SplitN(UnescapeSlashes(image), 5);
    if |tokens| < 4 then f
    else
      f.(sortField := tokens[0],
         descending := tokens[1] != "asc",
         offset := SafeInt(tokens[2], f.offset),
         count := SafeInt(tokens[3], f.count),
         expression := if |tokens| >= 5 && tokens[4] != "" then TrimSpace(DecodeText(tokens[4])) else f.expression)
  }

  function ParseSearchFilter(image: string): Search {
    ParseInto(DEFAULTS, image)
  }

  class SearchFilter {
    var offset: int
    var count: int
    var sortField: string
    var descending: bool
    var expression: string
    var interval: Option<DateInterval>
    var callId: string

    constructor ()
      ensures View() == DEFAULTS
    {
      offset, count, sortField, descending, expression, interval, callId := 0, 50, "start_time", true, "", None, "";
    }

    function View(): Search
      reads this
    {
      Search(offset, count, sortField, descending, expression, interval, callId)
    }

    /** Fewer than four tokens leave the filter as it is; a number that does not parse leaves its field. */
    method Parse(image: string)
      modifies this
      ensures View() == ParseInto(old(View()), image)
    {
      var decoded := UnescapeSlashes(image);
      var tokens := SplitN(decoded, 5);
      if |tokens| < 4 { return; }
      sortField := tokens[0];
      descending := tokens[1] != "asc";
      offset := SafeInt(tokens[2], offset);
      count := SafeInt(tokens[3], count);
      if |tokens| >= 5 && tokens[4] != "" {
        var text := B64DecodeText(tokens[4]);
        expression := TrimSpace(text);
      }
    }
  }

  /** The transport form, and what a request without one asks for: 50 streams from the first, the latest first. */
  lemma TransportForm(f: Search)
    requires IsBytes(f.expression)
    ensures f.descending && f.expression == "" ==>
              Image(f) == f.sortField + "/desc/" + FormatInt(f.offset) + "/" + FormatInt(f.count)
    ensures !f.descending && f.expression == "" ==>
              Image(f) == f.sortField + "/asc/" + FormatInt(f.offset) + "/" + FormatInt(f.count)
    ensures f.expression != "" ==> Image(f) == Image(f.(expression := "")) + "/" + Encode(Standard, f.expression)
    ensures ParseSearchFilter("") == Search(0, 50, "start_time", true, "", None, "")
  {
    var o, c := FormatInt(f.offset), FormatInt(f.count);
    assert f.sortField + "/desc/" + o + "/" + c == f.sortField + "/" + "desc" + "/" + o + "/" + c + "";
    assert f.sortField + "/asc/" + o + "/" + c == f.sortField + "/" + "asc" + "/" + o + "/" + c + "";
    var head := f.sortField + "/" + (if f.descending then "desc" else "asc") + "/" + o + "/" + c;
    Appended(head, Encode(Standard, f.expression));
  }

  lemma Appended(head: string, payload: string)
    ensures head + "" == head && head + ("/" + payload) == head + "/" + payload
  {
  }

  /** Digits are read as a number of 64 bits; other texts without a sign are refused. */
  lemma AtoiPlain(s: string)
    requires s != "" ==> s[0] != '-' && s[0] != '+'
    ensures Atoi(s) == if s != "" && AllDigits(s) && IsInt64(DigitsValue(s)) then Some(DigitsValue(s)) else None
  {
  }

  /** And so are digits with a sign, in the range of their sign. */
  lemma AtoiSigned(sign: char, s: string)
    requires sign == '-' || sign == '+'
    ensures var n: int := if s != "" && AllDigits(s) then DigitsValue(s) else 0;
            var v := if sign == '-' then -n else n;
            Atoi([sign] + s) == if s != "" && AllDigits(s) && IsInt64(v) then Some(v) else None
  {
    assert ([sign] + s)[1..] == s && ([sign] + s)[0] == sign;
  }

  // ----- the round trip -----

  lemma {:induction false} DigitsValueOfText(n: nat)
    ensures AllDigits(DigitText(n)) && DigitsValue(DigitText(n)) == n
  {
    DigitTextDigits(n);
    var s := DigitText(n);
    if n >= 10 {
      DigitsValueOfText(n / 10);
      assert s[..|s| - 1] == DigitText(n / 10);
    } else {
      assert s[..|s| - 1] == "";
    }
  }

  lemma AtoiOfFormat(n: int)
    requires IsInt64(n)
    ensures Atoi(FormatInt(n)) == Some(n)
  {
    DigitTextDigits(Abs(n));
    DigitsValueOfText(Abs(n));
    if n < 0 { assert FormatInt(n)[1..] == DigitText(-n); }
  }

  predicate EscapedAt(s: string, k: nat) {
    k + 3 <= |s| && s[k..k + 3] == "%2F"
  }

  /** The field survives a transport that splits at slashes, escaped or not. */
  ghost predicate Clean(field: string) {
    '/' !in field && forall k: nat :: !EscapedAt(field, k)
  }

  lemma {:induction false} NothingEscaped(s: string)
    requires forall k: nat :: !EscapedAt(s, k)
    ensures UnescapeSlashes(s) == s
  {
    if s != "" {
      assert !EscapedAt(s, 0);
      forall k: nat ensures !EscapedAt(s[1..], k) {
        assert k + 4 <= |s| ==> s[1..][k..k + 3] == s[k + 1..k + 4];
        assert !EscapedAt(s, k + 1);
      }
      NothingEscaped(s[1..]);
    }
  }

  lemma {:induction false} EscapeMakesSlash(s: string, k: nat)
    requires EscapedAt(s, k)
    ensures FirstSlash(UnescapeSlashes(s)) <= k
  {
    if s[..3] != "%2F" && s[0] != '/' {
      assert s[1..][k - 1..k + 2] == s[k..k + 3];
      EscapeMakesSlash(s[1..], k - 1);
      assert UnescapeSlashes(s)[1..] == UnescapeSlashes(s[1..]);
    }
  }

  lemma {:induction false} FirstSlashAt(a: string, b: string)
    requires '/' !in a && (b == "" || b[0] == '/')
    ensures FirstSlash(a + b) == |a|
  {
    if a == "" {
      assert a + b == b;
    } else {
      assert a[0] in a && forall c :: c in a[1..] ==> c in a;
      FirstSlashAt(a[1..], b);
      assert (a + b)[1..] == a[1..] + b;
    }
  }

  lemma SplitFirst(a: string, rest: string, n: nat)
    requires '/' !in a && n >= 2
    ensures SplitN(a + "/" + rest, n) == [a] + SplitN(rest, n - 1)
  {
    FirstSlashAt(a, "/" + rest);
    var s := a + "/" + rest;
    assert s == a + ("/" + rest) && s[..|a|] == a && s[|a| + 1..] == rest;
  }

  lemma SplitLast(a: string, n: nat)
    requires '/' !in a && n >= 1
    ensures SplitN(a, n) == [a]
  {
    FirstSlashAt(a, "");
    assert a + "" == a;
  }

  /** Only plain characters: no percent sign, and a slash only where one is put. */
  lemma NumberPlain(n: int)
    ensures '/' !in FormatInt(n) && '%' !in FormatInt(n)
  {
    DigitTextDigits(Abs(n));
  }

  /** The image behind its sort field. */
  function Settings(f: Search): string
    requires IsBytes(f.expression)
  {
    var direction := if f.descending then "desc" else "asc";
    var payload := if f.expression == "" then "" else "/" + Encode(Standard, f.expression);
    direction + "/" + (FormatInt(f.offset) + "/" + (FormatInt(f.count) + payload))
  }

  lemma ImageIs(f: Search)
    requires IsBytes(f.expression)
    ensures Image(f) == f.sortField + "/" + Settings(f)
    ensures '%' !in Settings(f)
  {
    NumberPlain(f.offset);
    NumberPlain(f.count);
    EncodingPlain(Standard, f.expression);
    var direction := if f.descending then "desc" else "asc";
    var payload := if f.expression == "" then "" else "/" + Encode(Standard, f.expression);
    var o, c := FormatInt(f.offset), FormatInt(f.count);
    assert Image(f) == f.sortField + "/" + direction + "/" + o + "/" + c + payload;
    assert '%' !in payload by {
      assert f.expression != "" ==> forall k :: 0 <= k < |payload| ==> payload[k] != '%';
    }
    assert '%' !in direction;
    Associates(f.sortField, direction, o, c, payload);
  }

  lemma Associates(a: string, b: string, c: string, d: string, e: string)
    ensures a + "/" + b + "/" + c + "/" + d + e == a + "/" + (b + "/" + (c + "/" + (d + e)))
  {
  }

  lemma CleanImageUnescaped(f: Search)
    requires IsBytes(f.expression) && Clean(f.sortField)
    ensures UnescapeSlashes(Image(f)) == Image(f)
  {
    ImageIs(f);
    var s, n := Image(f), |f.sortField|;
    forall k: nat ensures !EscapedAt(s, k) {
      assert n < k < |s| ==> s[k] == Settings(f)[k - n - 1];
      if EscapedAt(s, k) {
        assert s[k] == s[k..k + 3][0] == '%' && s[k + 1] == s[k..k + 3][1] == '2' && s[k + 2] == s[k..k + 3][2] == 'F';
        assert k + 3 <= n;
        assert f.sortField[k..k + 3] == s[k..k + 3];
        assert EscapedAt(f.sortField, k);
      }
    }
    NothingEscaped(s);
  }

  lemma Pair(a: string, b: string, rest: seq<string>)
    ensures [a] + ([b] + rest) == [a, b] + rest
  {
  }

  lemma SplitTwo(a: string, b: string, rest: string, n: nat)
    requires '/' !in a && '/' !in b && n >= 3
    ensures SplitN(a + "/" + (b + "/" + rest), n) == [a, b] + SplitN(rest, n - 2)
  {
    SplitFirst(a, b + "/" + rest, n);
    SplitFirst(b, rest, n - 1);
    Pair(a, b, SplitN(rest, n - 2));
  }

  lemma SplitFour(a: string, b: string, c: string, d: string, n: nat)
    requires '/' !in a && '/' !in b && '/' !in c && '/' !in d && n == 5
    ensures SplitN(a + "/" + (b + "/" + (c + "/" + d)), n) == [a, b, c, d]
  {
    SplitTwo(a, b, c + "/" + d, n);
    SplitFirst(c, d, n - 2);
    SplitLast(d, n - 3);
  }

  lemma SplitFive(a: string, b: string, c: string, d: string, e: string, n: nat)
    requires '/' !in a && '/' !in b && '/' !in c && '/' !in d && n == 5
    ensures SplitN(a + "/" + (b + "/" + (c + "/" + (d + "/" + e))), n) == [a, b, c, d, e]
  {
    SplitTwo(a, b, c + "/" + (d + "/" + e), n);
    SplitTwo(c, d, e, n - 2);
    assert SplitN(e, n - 4) == [e];
  }

  lemma ShortTokens(field: string, direction: string, o: string, c: string)
    requires '/' !in field && '/' !in direction && '/' !in o && '/' !in c
    ensures SplitN(field + "/" + (direction + "/" + (o + "/" + c)), 5) == [field, direction, o, c] + []
  {
    SplitFour(field, direction, o, c, 5);
  }

  lemma LongTokens(field: string, direction: string, o: string, c: string, payload: string)
    requires '/' !in field && '/' !in direction && '/' !in o && '/' !in c
    ensures SplitN(field + "/" + (direction + "/" + (o + "/" + (c + ("/" + payload)))), 5)
            == [field, direction, o, c] + [payload]
  {
    assert c + ("/" + payload) == c + "/" + payload;
    SplitFive(field, direction, o, c, payload, 5);
  }

  /** The tokens of an image whose field is clean. */
  lemma TokensOf(f: Search)
    requires IsBytes(f.expression) && Clean(f.sortField)
    ensures SplitN(UnescapeSlashes(Image(f)), 5)
            == [f.sortField, if f.descending then "desc" else "asc", FormatInt(f.offset), FormatInt(f.count)]
               + if f.expression == "" then [] else [Encode(Standard, f.expression)]
  {
    CleanImageUnescaped(f);
    ImageIs(f);
    NumberPlain(f.offset);
    NumberPlain(f.count);
    var direction := if f.descending then "desc" else "asc";
    var o, c := FormatInt(f.offset), FormatInt(f.count);
    assert '/' !in direction;
    if f.expression == "" {
      assert c + "" == c;
      ShortTokens(f.sortField, direction, o, c);
    } else {
      LongTokens(f.sortField, direction, o, c, Encode(Standard, f.expression));
    }
  }

  /** A field with a slash, escaped or not, comes back shorter. */
  lemma UncleanFieldLost(f: Search)
    requires IsBytes(f.expression) && !Clean(f.sortField)
    ensures ParseSearchFilter(Image(f)).sortField != f.sortField
  {
    ImageIs(f);
    var s := UnescapeSlashes(Image(f));
    var tokens := SplitN(s, 5);
    if '/' in f.sortField {
      assert |tokens| >= 4 ==> '/' !in tokens[0];
      assert '/' !in DEFAULTS.sortField;
    } else {
      var k: nat :| EscapedAt(f.sortField, k);
      EscapeCutsShort(f.sortField, Settings(f), k);
      assert |tokens| >= 4 ==> |tokens[0]| <= k;
      assert '%' !in DEFAULTS.sortField;
    }
  }

  lemma EscapeCutsShort(field: string, settings: string, k: nat)
    requires EscapedAt(field, k)
    ensures FirstSlash(UnescapeSlashes(field + "/" + settings)) <= k < |field| && field[k] == '%'
  {
    var image := field + "/" + settings;
    assert image[k..k + 3] == field[k..k + 3];
    EscapeMakesSlash(image, k);
    assert field[k] == field[k..k + 3][0];
  }

  predicate SameListing(f: Search, g: Search) {
    && f.sortField == g.sortField && f.descending == g.descending && f.offset == g.offset && f.count == g.count
    && f.expression == g.expression
  }

  /**
   * Parsing what String printed restores sort field, direction, offset, count and expression exactly when the field
   * has no slash and no "%2F" and the expression is trimmed, valid UTF-8.
   */
  lemma RoundTripExact(f: Search)
    requires IsInt64(f.offset) && IsInt64(f.count) && IsBytes(f.expression)
    ensures SameListing(ParseSearchFilter(Image(f)), f)
            <==> Clean(f.sortField) && ValidUtf8(f.expression) && TrimSpace(f.expression) == f.expression
  {
    if Clean(f.sortField) {
      TokensOf(f);
      AtoiOfFormat(f.offset);
      AtoiOfFormat(f.count);
      EncodingPlain(Standard, f.expression);
      DecodeTextInverts(Standard, f.expression);
      assert TrimSpace("") == "";
    } else {
      UncleanFieldLost(f);
    }
  }
}
