/** The characters and spellings of the filter language, written out. */
module FilterCharacters {
  import opened Lists
  import opened Results
  import opened Texts
  import opened FilterLexer
  import opened FilterLexicon

  predicate Ranges(c: char, lo: int, hi: int) {
    lo <= c as int <= hi
  }

  /** The classes of characters, by their ASCII codes. */
  lemma Classes(c: char)
    ensures IsDigit(c) <==> Ranges(c, 48, 57)
    ensures IsIdentStart(c) <==> Ranges(c, 65, 90) || Ranges(c, 97, 122)
    ensures IsIdentBody(c) <==>
              Ranges(c, 65, 90) || Ranges(c, 97, 122) || Ranges(c, 48, 57) || c as int == 46 || c as int == 95
    ensures IsHexDigit(c) <==> Ranges(c, 48, 57) || Ranges(c, 65, 70) || Ranges(c, 97, 102)
    ensures IsSpace(c) <==> c as int == 32 || Ranges(c, 9, 13)
  {
  }

  const SMALL_HEX: string := "0123456789abcdef"
  const LARGE_HEX: string := "0123456789ABCDEF"

  /** The values of hexadecimal digits. */
  lemma HexValues(v: nat)
    requires v < 16
    ensures IsHexDigit(SMALL_HEX[v]) && DigitValue(SMALL_HEX[v]) == v
    ensures IsHexDigit(LARGE_HEX[v]) && DigitValue(LARGE_HEX[v]) == v
  {
  }

  /** The logical operators and those of equality and containment, alone in a text. */
  lemma LogicSpellings(float: FloatParser)
    ensures Lex("||", float) == Ok([Operator(Or)]) && Lex("&&", float) == Ok([Operator(And)])
    ensures Lex("==", float) == Ok([Operator(Eq)]) && Lex("!=", float) == Ok([Operator(Ne)])
    ensures Lex("~", float) == Ok([Operator(Like)])
  {
    Alone("||", Or, float);
    Alone("&&", And, float);
    Alone("==", Eq, float);
    Alone("!=", Ne, float);
    Alone("~", Like, float);
  }

  lemma OrderSpellings(float: FloatParser)
    ensures Lex("<", float) == Ok([Operator(Lt)]) && Lex("<=", float) == Ok([Operator(Le)])
    ensures Lex(">", float) == Ok([Operator(Gt)]) && Lex(">=", float) == Ok([Operator(Ge)])
  {
    Alone("<", Lt, float);
    Alone("<=", Le, float);
    Alone(">", Gt, float);
    Alone(">=", Ge, float);
  }

  lemma ArithmeticSpellings(float: FloatParser)
    ensures Lex("+", float) == Ok([Operator(Add)]) && Lex("-", float) == Ok([Operator(Sub)])
    ensures Lex("*", float) == Ok([Operator(Mul)]) && Lex("/", float) == Ok([Operator(Div)])
  {
    Alone("+", Add, float);
    Alone("-", Sub, float);
    Alone("*", Mul, float);
    Alone("/", Div, float);
  }

  lemma Alone(s: string, op: Op, float: FloatParser)
    requires s == OpText(op)
    ensures Lex(s, float) == Ok([Operator(op)])
  {
    assert s[..|s|] == s && s[|s|..] == "";
    ScanOperator(s, op, 0, float);
    LexStep(s, 0, Operator(op), |s|, float);
    assert LexFrom("", |s|, float) == Ok([]);
    ConcatNothing([Operator(op)]);
  }

  // ----- numbers -----

  /** A text that is one spelling lexes to its token. */
  lemma LexesAlone(s: string, t: Token, float: FloatParser)
    requires s != "" && !IsSpace(s[0]) && Spells(s, t, float)
    ensures Lex(s, float) == Ok([t])
  {
    assert s[..|s|] == s && s[|s|..] == "" && [t][1..] == [];
    assert Heads(s, |s|, [t][0], float) && Lexes(s[|s|..], [t][1..], float);
    LexExact(s, [t], float);
  }

  /** Decimal digits are a whole number, past 64 bits the largest there is. */
  lemma DecimalLiterals(n: nat, float: FloatParser)
    ensures Lex(DigitText(n), float) == Ok([Number(Whole(if n <= MAX_INT64 then n else MAX_INT64))])
  {
    DigitTextNumeral(n);
    DigitsSpell(DigitText(n), n, float);
    LexesAlone(DigitText(n), Number(Whole(if n <= MAX_INT64 then n else MAX_INT64)), float);
  }

  lemma DigitsSpell(s: string, n: nat, float: FloatParser)
    requires s != "" && All(s, IsDigit) && All(s, IsHexDigit) && Numeral(s, 10) == n
    ensures !IsSpace(s[0]) && Spells(s, Number(Whole(if n <= MAX_INT64 then n else MAX_INT64)), float)
  {
    SplitDigits(s);
    assert SpellsDecimal(s, Number(Whole(if n <= MAX_INT64 then n else MAX_INT64)), float);
  }

  /** A dotted text is a float if it is one, and otherwise, being an address, a string. */
  lemma DottedLiterals(s: string, a: nat, b: nat, c: nat, d: nat, float: FloatParser)
    requires Dotted(s, a, b, c, d)
    ensures float(s).Some? ==> Lex(s, float) == Ok([Number(Decimal(float(s).value))])
    ensures float(s).None? ==> Lex(s, float) == Ok([Text(s)])
  {
    DottedIsAddress(s, a, b, c, d);
    DottedIsRun(s, DigitText(a), DigitText(b), DigitText(c), DigitText(d), a, b, c, d);
    LexesAlone(s, NumberToken(s, float), float);
  }

  lemma DottedIsRun(
    s: string, w: string, x: string, y: string, z: string, a: nat, b: nat, c: nat, d: nat)
    requires w == DigitText(a) && x == DigitText(b) && y == DigitText(c) && z == DigitText(d)
    requires s == w + ['.'] + (x + ['.'] + (y + ['.'] + z))
    ensures IsDecimalRun(s)
  {
    DigitTextNumeral(a);
    DigitTextNumeral(b);
    DigitTextNumeral(c);
    DigitTextNumeral(d);
    DigitsThenDot(y, z);
    DigitsThenDot(x, y + ['.'] + z);
    DigitsThenDot(w, x + ['.'] + (y + ['.'] + z));
    assert s[0] == w[0];
  }

  lemma DigitsThenDot(p: string, s: string)
    requires All(p, IsDigit) && (All(s, IsDigit) || All(s, IsDigitOrDot))
    ensures All(p + ['.'] + s, IsDigitOrDot)
  {
  }

  // ----- IPv4 literals -----

  function Join(parts: seq<string>, c: char): string
    requires parts != []
  {
    if |parts| == 1 then parts[0] else parts[0] + [c] + Join(parts[1..], c)
  }

  /** A first part in front of the parts that follow it. */
  lemma JoinMore(p: string, rest: seq<string>, c: char)
    requires rest != []
    ensures Join([p] + rest, c) == p + [c] + Join(rest, c)
  {
    assert ([p] + rest)[1..] == rest;
  }

  lemma JoinLonger(x: char, rest: seq<string>, c: char)
    requires rest != []
    ensures Join([[x] + rest[0]] + rest[1..], c) == [x] + Join(rest, c)
  {
    var longer := [[x] + rest[0]] + rest[1..];
    assert longer[1..] == rest[1..];
    if |rest| > 1 { Grouped(x, rest[0], c, Join(rest[1..], c)); }
  }

  lemma Grouped(x: char, p: string, c: char, s: string)
    ensures [x] + p + [c] + s == [x] + (p + [c] + s)
  {
  }

  lemma JoinEmpty(rest: seq<string>, c: char)
    requires rest != []
    ensures Join([""] + rest, c) == [c] + Join(rest, c)
  {
    JoinMore("", rest, c);
    ConcatNothing([c]);
  }

  lemma FirstAndRest(s: string)
    requires s != ""
    ensures s == [s[0]] + s[1..]
  {
  }

  lemma {:induction false} SplitJoins(s: string, c: char)
    ensures Join(Split(s, c), c) == s
  {
    if s != "" {
      var rest := Split(s[1..], c);
      SplitJoins(s[1..], c);
      FirstAndRest(s);
      if s[0] == c { JoinEmpty(rest, c); } else { JoinLonger(s[0], rest, c); }
    }
  }

  lemma {:induction false} SplitFirst(p: string, c: char, s: string)
    requires c !in p
    ensures Split(p + [c] + s, c) == [p] + Split(s, c)
  {
    var t := p + [c] + s;
    if p == "" {
      assert t == [c] + s && t[1..] == s;
    } else {
      assert t[1..] == p[1..] + [c] + s;
      SplitFirst(p[1..], c, s);
      var rest := Split(s, c);
      assert ([p[1..]] + rest)[1..] == rest;
      assert [p[0]] + p[1..] == p;
    }
  }

  lemma OneDigit(c: char)
    requires IsDigit(c)
    ensures DigitText(DigitValue(c)) == [c]
  {
  }

  lemma OneMoreDigit(n: nat, c: char)
    requires n > 0 && IsDigit(c)
    ensures DigitText(n * 10 + DigitValue(c)) == DigitText(n) + [c]
  {
    var m, d := n * 10 + DigitValue(c), DigitValue(c);
    assert m >= 10 && m / 10 == n && m % 10 == d;
  }

  /** Digits without a leading zero are the decimal text of their number. */
  lemma {:induction false} CanonicalDigits(p: string)
    requires p != "" && (forall k :: 0 <= k < |p| ==> IsDigit(p[k])) && (|p| > 1 ==> p[0] != '0')
    ensures DigitText(Numeral(p, 10)) == p && (p[0] != '0' ==> Numeral(p, 10) > 0)
  {
    var front, last := p[..|p| - 1], p[|p| - 1];
    FrontAndLast(p);
    if |p| > 1 {
      CanonicalDigits(front);
      OneMoreDigit(Numeral(front, 10), last);
    } else {
      assert front == "";
      OneDigit(last);
    }
  }

  lemma {:induction false} TextIsOctet(n: nat)
    requires n <= 255
    ensures IsOctet(DigitText(n)) && '.' !in DigitText(n)
  {
    DigitTextNumeral(n);
    DigitTextLength(n);
  }

  lemma DigitTextLength(n: nat)
    requires n < 1000
    ensures |DigitText(n)| == if n < 10 then 1 else if n < 100 then 2 else 3
    ensures n >= 10 ==> DigitText(n)[0] != '0'
  {
  }

  /** A dotted decimal text of four bytes. */
  ghost predicate Dotted(s: string, a: nat, b: nat, c: nat, d: nat) {
    && a <= 255 && b <= 255 && c <= 255 && d <= 255
    && s == DigitText(a) + ['.'] + (DigitText(b) + ['.'] + (DigitText(c) + ['.'] + DigitText(d)))
  }

  lemma OctetIsText(p: string)
    requires IsOctet(p)
    ensures Numeral(p, 10) <= 255 && DigitText(Numeral(p, 10)) == p
  {
    CanonicalDigits(p);
  }

  lemma DottedBy(s: string, a: nat, b: nat, c: nat, d: nat, w: string, x: string, y: string, z: string)
    requires a <= 255 && b <= 255 && c <= 255 && d <= 255
    requires DigitText(a) == w && DigitText(b) == x && DigitText(c) == y && DigitText(d) == z
    requires s == w + ['.'] + (x + ['.'] + (y + ['.'] + z))
    ensures Dotted(s, a, b, c, d)
  {
  }

  lemma AddressIsDotted(s: string)
    requires IsIPv4(s)
    ensures exists a, b, c, d :: Dotted(s, a, b, c, d)
  {
    var parts := Split(s, '.');
    var w, x, y, z := parts[0], parts[1], parts[2], parts[3];
    SplitJoins(s, '.');
    FourJoined(parts);
    assert w in parts && x in parts && y in parts && z in parts;
    OctetIsText(w);
    OctetIsText(x);
    OctetIsText(y);
    OctetIsText(z);
    DottedBy(s, Numeral(w, 10), Numeral(x, 10), Numeral(y, 10), Numeral(z, 10), w, x, y, z);
  }

  lemma FourOctets(s: string, w: string, x: string, y: string, z: string)
    requires IsOctet(w) && IsOctet(x) && IsOctet(y) && IsOctet(z)
    requires Split(s, '.') == [w] + ([x] + ([y] + [z]))
    ensures IsIPv4(s)
  {
    var parts := [w] + ([x] + ([y] + [z]));
    assert forall p :: p in parts ==> p == w || p == x || p == y || p == z;
  }

  lemma DottedIsAddress(s: string, a: nat, b: nat, c: nat, d: nat)
    requires Dotted(s, a, b, c, d)
    ensures IsIPv4(s)
  {
    TextIsOctet(a);
    TextIsOctet(b);
    TextIsOctet(c);
    TextIsOctet(d);
    var w, x, y, z := DigitText(a), DigitText(b), DigitText(c), DigitText(d);
    SplitInFour(w, x, y, z);
    FourOctets(s, w, x, y, z);
  }

  /** What is taken for an IPv4 address is exactly the dotted decimal text of four bytes. */
  lemma IPv4Exact(s: string)
    ensures IsIPv4(s) <==> exists a, b, c, d :: Dotted(s, a, b, c, d)
  {
    if IsIPv4(s) { AddressIsDotted(s); }
    if a, b, c, d :| Dotted(s, a, b, c, d) { DottedIsAddress(s, a, b, c, d); }
  }

  lemma FourJoined(parts: seq<string>)
    requires |parts| == 4
    ensures Join(parts, '.') == parts[0] + ['.'] + (parts[1] + ['.'] + (parts[2] + ['.'] + parts[3]))
  {
    var last, two, three := [parts[3]], [parts[2]] + [parts[3]], [parts[1]] + ([parts[2]] + [parts[3]]);
    assert Join(last, '.') == parts[3];
    JoinMore(parts[2], last, '.');
    JoinMore(parts[1], two, '.');
    JoinMore(parts[0], three, '.');
    assert parts == [parts[0]] + three;
  }

  lemma SplitInFour(a: string, b: string, c: string, d: string)
    requires '.' !in a && '.' !in b && '.' !in c && '.' !in d
    ensures Split(a + ['.'] + (b + ['.'] + (c + ['.'] + d)), '.') == [a] + ([b] + ([c] + [d]))
  {
    var cd := c + ['.'] + d;
    var bcd := b + ['.'] + cd;
    SplitDigits(d);
    SplitFirst(c, '.', d);
    assert Split(cd, '.') == [c] + [d];
    SplitFirst(b, '.', cd);
    assert Split(bcd, '.') == [b] + ([c] + [d]);
    SplitFirst(a, '.', bcd);
    assert Split(a + ['.'] + bcd, '.') == [a] + ([b] + ([c] + [d]));
  }
}
