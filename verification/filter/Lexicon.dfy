/**
 The lexical grammar of the filter language, stated without the scanning loop: which texts spell a
 token and where a token must end. The lexer accepts exactly this grammar.
*/
module FilterLexicon {
  import opened Results
  import opened Texts
  import opened FilterLexer

  ghost predicate IsHexLiteral(sp: string) {
    |sp| > 2 && sp[0] == '0' && IsHexMark(sp[1]) && All(sp[2..], IsHexDigit)
  }

  ghost predicate SpellsDecimal(sp: string, t: Token, float: FloatParser) {
    IsDecimalRun(sp) && t == NumberToken(sp, float)
  }

  ghost predicate SpellsHex(sp: string, t: Token) {
    IsHexLiteral(sp) && Numeral(sp[2..], 16) <= MAX_INT64 && t == Number(Whole(Numeral(sp[2..], 16)))
  }

  ghost predicate Quotes(sp: string, v: string) {
    '"' !in v && sp == "\"" + v + "\""
  }

  /** `sp` is a way to write the token `t`. */
  ghost predicate Spells(sp: string, t: Token, float: FloatParser) {
    match t
    case LParen => sp == "("
    case RParen => sp == ")"
    case Operator(op) => sp == OpText(op)
    case Ident(name) => sp == name && name != "" && IsIdentStart(name[0]) && All(name, IsIdentBody)
    case Text(v) => Quotes(sp, v) || SpellsDecimal(sp, t, float)
    case Number(_) => SpellsHex(sp, t) || SpellsDecimal(sp, t, float)
  }

  /** The character `c` after the spelling `sp` of `t` cannot belong to the same token. */
  ghost predicate EndsBefore(sp: string, t: Token, c: char) {
    match t
    case LParen => true
    case RParen => true
    case Operator(op) => (op == Lt || op == Gt) ==> c != '='
    case Ident(_) => !IsIdentBody(c)
    case _ =>
      if sp != "" && sp[0] == '"' then true
      else if IsHexLiteral(sp) then !IsHexDigit(c)
      else !IsDigitOrDot(c) && !(sp == "0" && IsHexMark(c))
  }

  /** `s` starts with a spelling of `t` of length `n`, which ends there. */
  ghost predicate Heads(s: string, n: nat, t: Token, float: FloatParser) {
    && 0 < n <= |s|
    && Spells(s[..n], t, float)
    && (n < |s| ==> EndsBefore(s[..n], t, s[n]))
  }

  /** `s` is spellings of the tokens `ts`, in order, with optional white space around each. */
  ghost predicate Lexes(s: string, ts: seq<Token>, float: FloatParser)
    decreases |s|
  {
    if s == "" then ts == []
    else if IsSpace(s[0]) then Lexes(s[1..], ts, float)
    else ts != [] && exists n: nat :: Heads(s, n, ts[0], float) && Lexes(s[n..], ts[1..], float)
  }

  // ----- what Scan returns at a spelled token -----

  lemma ScanDecimalHead(s: string, n: nat, t: Token, float: FloatParser)
    requires n <= |s| && SpellsDecimal(s[..n], t, float)
    requires n < |s| ==> !IsDigitOrDot(s[n]) && !(s[..n] == "0" && IsHexMark(s[n]))
    ensures IsDigit(s[0]) && ScanNumber(s, float) == Ok((t, n))
  {
    assert s[0] == s[..n][0];
    RunLenIs(s, IsDigitOrDot, n);
    assert n > 1 ==> s[1] == s[..n][1] && IsDigitOrDot(s[1]);
    assert n == 1 ==> s[..n] == [s[0]];
  }

  lemma ScanHexHead(s: string, n: nat, t: Token, float: FloatParser)
    requires n <= |s| && SpellsHex(s[..n], t)
    requires n < |s| ==> !IsHexDigit(s[n])
    ensures IsDigit(s[0]) && ScanNumber(s, float) == Ok((t, n))
  {
    assert s[0] == s[..n][0] && s[1] == s[..n][1];
    assert s[2..][..n - 2] == s[..n][2..];
    RunLenIs(s[2..], IsHexDigit, n - 2);
  }

  lemma ScanQuoted(s: string, n: nat, v: string, at: nat, float: FloatParser)
    requires n <= |s| && Quotes(s[..n], v)
    ensures !IsSpace(s[0]) && Scan(s, at, float) == Ok((Text(v), n))
  {
    assert s[0] == s[..n][0] == '"' && s[n - 1] == s[..n][n - 1] == '"';
    assert s[1..][..n - 2] == s[..n][1..n - 1] == v;
    RunLenIs(s[1..], NotQuote, n - 2);
  }

  lemma ScanIdent(s: string, n: nat, at: nat, float: FloatParser)
    requires 0 < n <= |s| && IsIdentStart(s[0]) && All(s[..n], IsIdentBody)
    requires n < |s| ==> !IsIdentBody(s[n])
    ensures Scan(s, at, float) == Ok((Ident(s[..n]), n))
  {
    assert s[1..][..n - 1] == s[..n][1..];
    RunLenIs(s[1..], IsIdentBody, n - 1);
  }

  lemma ScanOperator(s: string, op: Op, at: nat, float: FloatParser)
    requires |OpText(op)| <= |s| && s[..|OpText(op)|] == OpText(op)
    requires |OpText(op)| < |s| ==> EndsBefore(OpText(op), Operator(op), s[|OpText(op)|])
    ensures !IsSpace(s[0]) && Scan(s, at, float) == Ok((Operator(op), |OpText(op)|))
  {
    assert s[0] == OpText(op)[0];
    assert |OpText(op)| == 2 ==> s[1] == OpText(op)[1];
    assert OperatorAt(s) == Some(op);
  }

  lemma ScanHead(s: string, n: nat, t: Token, at: nat, float: FloatParser)
    requires Heads(s, n, t, float)
    ensures !IsSpace(s[0]) && Scan(s, at, float) == Ok((t, n))
  {
    var sp := s[..n];
    match t
    case LParen => assert s[0] == sp[0];
    case RParen => assert s[0] == sp[0];
    case Operator(op) => ScanOperator(s, op, at, float);
    case Ident(name) =>
      assert s[0] == sp[0];
      ScanIdent(s, n, at, float);
    case Text(v) =>
      if Quotes(sp, v) { ScanQuoted(s, n, v, at, float); } else { ScanDecimalHead(s, n, t, float); }
    case Number(_) =>
      if SpellsHex(sp, t) { ScanHexHead(s, n, t, float); } else { ScanDecimalHead(s, n, t, float); }
  }

  /** What the text lexes to. */
  function Lexing(s: string, at: nat, float: FloatParser): Result<seq<Token>, LexError> {
    LexFrom(s, at, float)
  }

  ghost predicate LexedAs(s: string, ts: seq<Token>, at: nat, float: FloatParser) {
    Lexing(s, at, float) == Ok(ts)
  }

  lemma NothingAlike(s: string, ts: seq<Token>, at: nat, float: FloatParser)
    requires s == ""
    ensures LexedAs(s, ts, at, float) <==> ts == []
    ensures Lexes(s, ts, float) <==> ts == []
  {
  }

  lemma SpaceAlike(s: string, ts: seq<Token>, at: nat, float: FloatParser)
    requires s != "" && IsSpace(s[0])
    ensures LexedAs(s, ts, at, float) <==> LexedAs(s[1..], ts, at + 1, float)
    ensures Lexes(s, ts, float) <==> Lexes(s[1..], ts, float)
  {
  }

  lemma TokenFirst(s: string, at: nat, n: nat, t: Token, ts: seq<Token>, float: FloatParser)
    requires Heads(s, n, t, float) && LexedAs(s[n..], ts, at + n, float)
    ensures LexedAs(s, [t] + ts, at, float)
  {
    ScanHead(s, n, t, at, float);
    LexStep(s, at, t, n, float);
  }

  lemma LexesHead(s: string, ts: seq<Token>, float: FloatParser) returns (n: nat)
    requires s != "" && !IsSpace(s[0]) && Lexes(s, ts, float)
    ensures ts != [] && 0 < n <= |s| && Heads(s, n, ts[0], float) && Lexes(s[n..], ts[1..], float)
  {
    n :| Heads(s, n, ts[0], float) && Lexes(s[n..], ts[1..], float);
  }

  lemma {:induction false} LexesIsLexed(s: string, ts: seq<Token>, at: nat, float: FloatParser)
    requires Lexes(s, ts, float)
    ensures LexedAs(s, ts, at, float)
    decreases |s|
  {
    if s == "" {
      NothingAlike(s, ts, at, float);
    } else if IsSpace(s[0]) {
      SpaceAlike(s, ts, at, float);
      LexesIsLexed(s[1..], ts, at + 1, float);
    } else {
      var n := LexesHead(s, ts, float);
      LexesIsLexed(s[n..], ts[1..], at + n, float);
      TokenFirst(s, at, n, ts[0], ts[1..], float);
      assert ts == [ts[0]] + ts[1..];
    }
  }

  // ----- what a scanned token spells -----

  lemma DecimalRunScanned(s: string, n: nat, float: FloatParser)
    requires s != "" && IsDigit(s[0]) && n == RunLen(s, IsDigitOrDot)
    requires !(s[0] == '0' && |s| > 1 && IsHexMark(s[1]))
    ensures Heads(s, n, NumberToken(s[..n], float), float)
  {
    var sp := s[..n];
    assert sp[0] == s[0];
    assert sp == "0" ==> n == 1;
    assert !IsHexLiteral(sp) by {
      assert forall k :: 0 <= k < n ==> IsDigitOrDot(sp[k]);
    }
    assert SpellsDecimal(sp, NumberToken(sp, float), float);
  }

  lemma QuotedScanned(s: string, n: nat)
    requires 2 <= n <= |s| && s[0] == '"' == s[n - 1] && n - 2 == RunLen(s[1..], NotQuote)
    ensures Quotes(s[..n], s[1..][..n - 2])
  {
    var v := s[1..][..n - 2];
    assert forall k :: 0 <= k < |v| ==> NotQuote(v[k]);
    assert s[..n] == "\"" + v + "\"";
  }

  lemma IdentScanned(s: string, n: nat)
    requires s != "" && IsIdentStart(s[0]) && n == 1 + RunLen(s[1..], IsIdentBody)
    ensures n <= |s| && All(s[..n], IsIdentBody) && (n < |s| ==> !IsIdentBody(s[n]))
  {
    forall k | 0 <= k < n ensures IsIdentBody(s[..n][k]) {
      if k > 0 { assert s[..n][k] == s[1..][..n - 1][k - 1]; }
    }
  }

  lemma ScannedOperator(s: string, n: nat)
    requires s != "" && OperatorAt(s).Some? && n == |OpText(OperatorAt(s).value)|
    ensures 0 < n <= |s| && s[..n] == OpText(OperatorAt(s).value)
    ensures n < |s| ==> EndsBefore(s[..n], Operator(OperatorAt(s).value), s[n])
  {
    var op := OperatorAt(s).value;
    assert s[0] == OpText(op)[0];
    assert n == 2 ==> |s| >= 2 && s[1] == OpText(op)[1];
  }

  lemma ScannedHead(s: string, at: nat, t: Token, n: nat, float: FloatParser)
    requires s != "" && !IsSpace(s[0]) && Scan(s, at, float) == Ok((t, n))
    ensures Heads(s, n, t, float)
  {
    var sp := s[..n];
    if s[0] == '(' || s[0] == ')' {
      assert sp == [s[0]];
    } else if s[0] == '"' {
      QuotedScanned(s, n);
      assert sp[0] == s[0];
    } else if IsDigit(s[0]) {
      if s[0] == '0' && |s| > 1 && IsHexMark(s[1]) {
        assert sp[2..] == s[2..][..n - 2];
        assert SpellsHex(sp, t);
      } else {
        DecimalRunScanned(s, n, float);
      }
    } else if IsIdentStart(s[0]) {
      IdentScanned(s, n);
    } else {
      ScannedOperator(s, n);
    }
  }

  lemma LexedScans(s: string, at: nat, ts: seq<Token>, float: FloatParser)
    requires s != "" && !IsSpace(s[0]) && LexedAs(s, ts, at, float)
    ensures Scan(s, at, float).Ok?
  {
  }

  lemma AfterIsOk(token: Token, r: Result<seq<Token>, LexError>, ts: seq<Token>)
    requires After([token], r) == Ok(ts)
    ensures ts != [] && ts[0] == token && r == Ok(ts[1..])
  {
    assert ([token] + r.value)[1..] == r.value;
  }

  lemma LexUnstep(s: string, at: nat, ts: seq<Token>, token: Token, n: nat, float: FloatParser)
    requires s != "" && !IsSpace(s[0]) && LexedAs(s, ts, at, float) && Scan(s, at, float) == Ok((token, n))
    ensures ts != [] && ts[0] == token && LexedAs(s[n..], ts[1..], at + n, float)
  {
    LexStep(s, at, token, n, float);
    AfterIsOk(token, LexFrom(s[n..], at + n, float), ts);
  }

  lemma LexesToken(s: string, n: nat, t: Token, ts: seq<Token>, float: FloatParser)
    requires s != "" && !IsSpace(s[0]) && ts != [] && ts[0] == t && Heads(s, n, t, float)
    ensures Lexes(s[n..], ts[1..], float) ==> Lexes(s, ts, float)
  {
  }

  /** What is lexed starts with a token of the grammar. */
  lemma LexedHead(s: string, at: nat, ts: seq<Token>, float: FloatParser) returns (n: nat)
    requires s != "" && !IsSpace(s[0]) && LexedAs(s, ts, at, float)
    ensures ts != [] && 0 < n <= |s| && LexedAs(s[n..], ts[1..], at + n, float)
    ensures Lexes(s[n..], ts[1..], float) ==> Lexes(s, ts, float)
  {
    LexedScans(s, at, ts, float);
    var (token, m) := Scan(s, at, float).value;
    n := m;
    LexUnstep(s, at, ts, token, n, float);
    ScannedHead(s, at, token, n, float);
    LexesToken(s, n, token, ts, float);
  }

  lemma {:induction false} LexedLexes(s: string, ts: seq<Token>, at: nat, float: FloatParser)
    requires LexedAs(s, ts, at, float)
    ensures Lexes(s, ts, float)
    decreases |s|
  {
    if s == "" {
      NothingAlike(s, ts, at, float);
    } else if IsSpace(s[0]) {
      SpaceAlike(s, ts, at, float);
      LexedLexes(s[1..], ts, at + 1, float);
    } else {
      var n := LexedHead(s, at, ts, float);
      LexedLexes(s[n..], ts[1..], at + n, float);
    }
  }

  /** The lexer accepts exactly the lexical grammar: maximal spellings separated by optional space. */
  lemma LexExact(text: string, ts: seq<Token>, float: FloatParser)
    ensures Lex(text, float) == Ok(ts) <==> Lexes(text, ts, float)
  {
    if Lex(text, float) == Ok(ts) {
      LexedLexes(text, ts, 0, float);
    } else if Lexes(text, ts, float) {
      LexesIsLexed(text, ts, 0, float);
    }
  }

  // ----- writing a token list down -----

  ghost predicate Expressible(t: Token, float: FloatParser) {
    exists sp :: Spells(sp, t, float)
  }

  ghost function Spelling(t: Token, float: FloatParser): (sp: string)
    requires Expressible(t, float)
    ensures Spells(sp, t, float)
  {
    var sp :| Spells(sp, t, float);
    sp
  }

  /** The tokens, one spelling each, with a space after every token. */
  ghost function Written(ts: seq<Token>, float: FloatParser): string
    requires forall t :: t in ts ==> Expressible(t, float)
  {
    if ts == [] then "" else Spelling(ts[0], float) + " " + Written(ts[1..], float)
  }

  lemma {:induction false} WrittenLexes(ts: seq<Token>, float: FloatParser)
    requires forall t :: t in ts ==> Expressible(t, float)
    ensures Lex(Written(ts, float), float) == Ok(ts)
  {
    WrittenIsLexical(ts, float);
    LexesIsLexed(Written(ts, float), ts, 0, float);
  }

  lemma {:induction false} WrittenIsLexical(ts: seq<Token>, float: FloatParser)
    requires forall t :: t in ts ==> Expressible(t, float)
    ensures Lexes(Written(ts, float), ts, float)
  {
    if ts != [] {
      var sp, rest := Spelling(ts[0], float), Written(ts[1..], float);
      var s := Written(ts, float);
      assert s == sp + " " + rest;
      assert s[..|sp|] == sp && s[|sp|..] == [' '] + rest;
      WrittenIsLexical(ts[1..], float);
      assert s[|sp|..][1..] == rest;
      SpellingStops(sp, ts[0], float);
      assert Heads(s, |sp|, ts[0], float);
      ScanHead(s, |sp|, ts[0], 0, float);
    }
  }

  /** A space ends every token. */
  lemma SpellingStops(sp: string, t: Token, float: FloatParser)
    requires Spells(sp, t, float)
    ensures sp != "" && EndsBefore(sp, t, ' ')
  {
  }

  lemma {:induction false} DigitTextNumeral(n: nat)
    ensures DigitText(n) != "" && All(DigitText(n), IsDigit) && All(DigitText(n), IsHexDigit)
    ensures Numeral(DigitText(n), 10) == n
  {
    var s := DigitText(n);
    assert s[..|s| - 1] == (if n < 10 then "" else DigitText(n / 10));
    if n >= 10 { DigitTextNumeral(n / 10); }
  }

  lemma {:induction false} SplitDigits(s: string)
    requires '.' !in s
    ensures Split(s, '.') == [s]
  {
    if s != "" {
      SplitDigits(s[1..]);
      assert [s[0]] + s[1..] == s;
    }
  }

  /** Which leaves of an expression can be written down. */
  lemma ExpressibleLeaves(t: Token, float: FloatParser)
    requires t.Text? || t.Ident? || (t.Number? && t.num.Whole?)
    ensures Expressible(t, float) <==>
            match t
            case Text(v) => '"' !in v
            case Ident(name) => name != "" && IsIdentStart(name[0]) && All(name, IsIdentBody)
            case Number(num) => 0 <= num.n <= MAX_INT64
            case _ => true
  {
    match t
    case Ident(name) =>
      assert Spells(name, t, float) <==> (name != "" && IsIdentStart(name[0]) && All(name, IsIdentBody));
    case Text(v) =>
      forall sp | SpellsDecimal(sp, t, float) ensures '"' !in v {
        assert v == sp && All(sp, IsDigitOrDot);
      }
      if '"' !in v { assert Spells("\"" + v + "\"", t, float); }
    case Number(num) =>
      if 0 <= num.n <= MAX_INT64 {
        var sp := DigitText(num.n);
        DigitTextNumeral(num.n);
        SplitDigits(sp);
        assert SpellsDecimal(sp, t, float);
        assert Spells(sp, t, float);
      }
  }
}
