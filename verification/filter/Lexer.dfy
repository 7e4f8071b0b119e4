/**
 The tokenizer of the filter language. A Go string is a `string` with one char per byte. What
 strconv.ParseFloat makes of a text is the parameter `float`.
*/
module FilterLexer {
  import opened Results

  datatype Op = Or | And | Eq | Ne | Like | Lt | Le | Gt | Ge | Add | Sub | Mul | Div

  /** A numeric literal: int64 or float64. */
  datatype Num = Whole(n: int) | Decimal(r: real)

  datatype Token =
    | Number(num: Num)
    | Text(text: string)
    | Ident(name: string)
    | Operator(op: Op)
    | LParen
    | RParen

  datatype LexError = UnterminatedString | MalformedHex | UnexpectedCharacter(at: nat)

  /** strconv.ParseFloat; None is its error. */
  type FloatParser = string -> Option<real>

  const MAX_INT64: int := 0x7fff_ffff_ffff_ffff

  function OpText(op: Op): string {
    match op
    case Or => "||" case And => "&&"
    case Eq => "==" case Ne => "!=" case Like => "~"
    case Lt => "<" case Le => "<=" case Gt => ">" case Ge => ">="
    case Add => "+" case Sub => "-" case Mul => "*" case Div => "/"
  }

  // ----- character classes -----

  predicate IsSpace(c: char) { c == ' ' || c == '\t' || c == '\n' || c == '\r' || c == 11 as char || c == 12 as char }
  predicate IsDigit(c: char) { '0' <= c <= '9' }
  predicate IsIdentStart(c: char) { 'a' <= c <= 'z' || 'A' <= c <= 'Z' }
  predicate IsIdentBody(c: char) { IsIdentStart(c) || IsDigit(c) || c == '.' || c == '_' }
  predicate IsHexDigit(c: char) { IsDigit(c) || 'a' <= c <= 'f' || 'A' <= c <= 'F' }
  predicate IsDigitOrDot(c: char) { IsDigit(c) || c == '.' }
  predicate NotQuote(c: char) { c != '"' }
  predicate IsHexMark(c: char) { c == 'x' || c == 'X' }

  ghost predicate All(s: string, p: char -> bool) {
    forall k :: 0 <= k < |s| ==> p(s[k])
  }

  // ----- numbers -----

  function DigitValue(c: char): nat
    requires IsHexDigit(c)
  {
    if IsDigit(c) then c as int - '0' as int
    else if 'a' <= c then c as int - 'a' as int + 10
    else c as int - 'A' as int + 10
  }

  /** The number written by hexadecimal digits `s` in the given base. */
  function Numeral(s: string, base: nat): nat
    requires forall k :: 0 <= k < |s| ==> IsHexDigit(s[k])
  {
    if s == "" then 0 else Numeral(s[..|s| - 1], base) * base + DigitValue(s[|s| - 1])
  }

  function Saturate(n: nat): int {
    if n > MAX_INT64 then MAX_INT64 else n
  }

  function Split(s: string, c: char): (parts: seq<string>)
    ensures parts != []
    ensures forall p, k :: p in parts && 0 <= k < |p| ==> p[k] in s && p[k] != c
  {
    if s == "" then [""]
    else
      var rest := Split(s[1..], c);
      if s[0] == c then [""] + rest else [[s[0]] + rest[0]] + rest[1..]
  }

  /** Python's IPv4Address rules: four octets of 1 to 3 digits, no leading zero, at most 255. */
  predicate IsIPv4(s: string) {
    var parts := Split(s, '.');
    |parts| == 4 && forall p :: p in parts ==> IsOctet(p)
  }

  predicate IsOctet(p: string) {
    && 1 <= |p| <= 3
    && (forall k :: 0 <= k < |p| ==> IsDigit(p[k]))
    && (|p| > 1 ==> p[0] != '0')
    && Numeral(p, 10) <= 255
  }

  ghost predicate IsDecimalRun(s: string) {
    s != "" && IsDigit(s[0]) && All(s, IsDigitOrDot)
  }

  /** What a maximal run of digits and dots stands for: a float, an IP literal, or its leading integer. */
  function NumberToken(raw: string, float: FloatParser): (t: Token)
    requires IsDecimalRun(raw)
  {
    var parts := Split(raw, '.');
    if |parts| > 1 && float(raw).Some? then Number(Decimal(float(raw).value))
    else if |parts| > 1 && IsIPv4(raw) then Text(raw)
    else Number(Whole(Saturate(Numeral(parts[0], 10))))
  }

  // ----- the lexer as a function of the remaining text -----

  /** The length of the longest prefix of `s` whose characters all satisfy `p`. */
  function RunLen(s: string, p: char -> bool): (n: nat)
    ensures n <= |s| && All(s[..n], p)
    ensures n < |s| ==> !p(s[n])
  {
    if s == "" || !p(s[0]) then 0 else 1 + RunLen(s[1..], p)
  }

  lemma {:induction false} RunLenIs(s: string, p: char -> bool, n: nat)
    requires n <= |s| && All(s[..n], p) && (n < |s| ==> !p(s[n]))
    ensures RunLen(s, p) == n
  {
    if n > 0 {
      assert p(s[..n][0]);
      assert s[1..][..n - 1] == s[..n][1..];
      RunLenIs(s[1..], p, n - 1);
    }
  }

  function ScanHex(s: string): (r: Result<(Token, nat), LexError>)
    requires |s| >= 2
    ensures r.Ok? ==> 0 < r.value.1 <= |s|
  {
    var n := RunLen(s[2..], IsHexDigit);
    if n == 0 then Err(MalformedHex)
    else
      var v := Numeral(s[2..][..n], 16);
      if v > MAX_INT64 then Err(MalformedHex) else Ok((Number(Whole(v)), n + 2))
  }

  function ScanNumber(s: string, float: FloatParser): (r: Result<(Token, nat), LexError>)
    requires s != "" && IsDigit(s[0])
    ensures r.Ok? ==> 0 < r.value.1 <= |s|
  {
    if s[0] == '0' && |s| > 1 && IsHexMark(s[1]) then ScanHex(s)
    else
      var n := RunLen(s, IsDigitOrDot);
      Ok((NumberToken(s[..n], float), n))
  }

  function OperatorAt(s: string): (r: Option<Op>) {
    if |s| >= 2 && s[0] == '<' && s[1] == '=' then Some(Le)
    else if |s| >= 2 && s[0] == '>' && s[1] == '=' then Some(Ge)
    else if |s| >= 2 && s[0] == '=' && s[1] == '=' then Some(Eq)
    else if |s| >= 2 && s[0] == '!' && s[1] == '=' then Some(Ne)
    else if |s| >= 2 && s[0] == '&' && s[1] == '&' then Some(And)
    else if |s| >= 2 && s[0] == '|' && s[1] == '|' then Some(Or)
    else if s == "" then None
    else if s[0] == '+' then Some(Add)
    else if s[0] == '-' then Some(Sub)
    else if s[0] == '*' then Some(Mul)
    else if s[0] == '/' then Some(Div)
    else if s[0] == '<' then Some(Lt)
    else if s[0] == '>' then Some(Gt)
    else if s[0] == '~' then Some(Like)
    else None
  }

  /** The token at the head of `s` and its length. */
  function Scan(s: string, at: nat, float: FloatParser): (r: Result<(Token, nat), LexError>)
    requires s != "" && !IsSpace(s[0])
    ensures r.Ok? ==> 0 < r.value.1 <= |s|
  {
    if s[0] == '(' then Ok((LParen, 1))
    else if s[0] == ')' then Ok((RParen, 1))
    else if s[0] == '"' then
      var n := RunLen(s[1..], NotQuote);
      if n + 1 >= |s| then Err(UnterminatedString) else Ok((Text(s[1..][..n]), n + 2))
    else if IsDigit(s[0]) then ScanNumber(s, float)
    else if IsIdentStart(s[0]) then
      var n := 1 + RunLen(s[1..], IsIdentBody);
      Ok((Ident(s[..n]), n))
    else match OperatorAt(s)
      case Some(op) => Ok((Operator(op), |OpText(op)|))
      case None => Err(UnexpectedCharacter(at))
  }

  /** All tokens of `s`; `at` is where `s` starts in the whole text. */
  function LexFrom(s: string, at: nat, float: FloatParser): Result<seq<Token>, LexError> {
    if s == "" then Ok([])
    else if IsSpace(s[0]) then LexFrom(s[1..], at + 1, float)
    else
      var (token, n) :- Scan(s, at, float);
      var rest :- LexFrom(s[n..], at + n, float);
      Ok([token] + rest)
  }

  function Lex(text: string, float: FloatParser): Result<seq<Token>, LexError> {
    LexFrom(text, 0, float)
  }

  // ----- the scanning loops -----

  ghost function After(done: seq<Token>, r: Result<seq<Token>, LexError>): Result<seq<Token>, LexError> {
    match r
    case Ok(rest) => Ok(done + rest)
    case Err(e) => Err(e)
  }

  method RunEnd(text: string, i: nat, p: char -> bool) returns (j: nat)
    requires i <= |text|
    ensures i <= j <= |text| && j - i == RunLen(text[i..], p) && text[i..j] == text[i..][..j - i]
  {
    j := i;
    while j < |text| && p(text[j])
      invariant i <= j <= |text|
      invariant forall k :: i <= k < j ==> p(text[k])
    {
      j := j + 1;
    }
    RunLenIs(text[i..], p, j - i);
  }

  ghost function Shifted(r: Result<(Token, nat), LexError>, d: nat): Result<(Token, nat), LexError> {
    match r
    case Ok((token, n)) => Ok((token, d + n))
    case Err(e) => Err(e)
  }

  method ScanHexAt(text: string, i: nat) returns (r: Result<(Token, nat), LexError>)
    requires i + 2 <= |text|
    ensures r == Shifted(ScanHex(text[i..]), i)
  {
    assert text[i..][2..] == text[i + 2..];
    var j := RunEnd(text, i + 2, IsHexDigit);
    if j == i + 2 { return Err(MalformedHex); }
    var v := Numeral(text[i + 2..j], 16);
    if v > MAX_INT64 { return Err(MalformedHex); }
    r := Ok((Number(Whole(v)), j));
  }

  method ScanNumberAt(text: string, i: nat, float: FloatParser) returns (r: Result<(Token, nat), LexError>)
    requires i < |text| && IsDigit(text[i])
    ensures r == Shifted(ScanNumber(text[i..], float), i)
  {
    if text[i] == '0' && i + 1 < |text| && IsHexMark(text[i + 1]) {
      r := ScanHexAt(text, i);
    } else {
      var j := RunEnd(text, i, IsDigitOrDot);
      r := Ok((NumberToken(text[i..j], float), j));
    }
  }

  method ScanAt(text: string, i: nat, float: FloatParser) returns (r: Result<(Token, nat), LexError>)
    requires i < |text| && !IsSpace(text[i])
    ensures r == Shifted(Scan(text[i..], i, float), i)
  {
    var c := text[i];
    assert text[i..][1..] == text[i + 1..];
    if c == '(' {
      r := Ok((LParen, i + 1));
    } else if c == ')' {
      r := Ok((RParen, i + 1));
    } else if c == '"' {
      var j := RunEnd(text, i + 1, NotQuote);
      r := if j >= |text| then Err(UnterminatedString) else Ok((Text(text[i + 1..j]), j + 1));
    } else if IsDigit(c) {
      r := ScanNumberAt(text, i, float);
    } else if IsIdentStart(c) {
      var j := RunEnd(text, i + 1, IsIdentBody);
      assert text[i..j] == text[i..][..j - i];
      r := Ok((Ident(text[i..j]), j));
    } else {
      var op := OperatorAt(text[i..]);
      r := if op.None? then Err(UnexpectedCharacter(i)) else Ok((Operator(op.value), i + |OpText(op.value)|));
    }
  }

  lemma LexStep(s: string, at: nat, token: Token, n: nat, float: FloatParser)
    requires s != "" && !IsSpace(s[0]) && Scan(s, at, float) == Ok((token, n))
    ensures LexFrom(s, at, float) == After([token], LexFrom(s[n..], at + n, float))
  {
    match LexFrom(s[n..], at + n, float)
    case Ok(rest) => assert LexFrom(s, at, float) == Ok([token] + rest);
    case Err(e) => assert LexFrom(s, at, float) == Err(e);
  }

  lemma AfterTwice(done: seq<Token>, token: Token, r: Result<seq<Token>, LexError>)
    ensures After(done, After([token], r)) == After(done + [token], r)
  {
    if r.Ok? { assert done + ([token] + r.value) == done + [token] + r.value; }
  }

  /** One round of the lexing loop at a token. */
  lemma LexToken(s: string, at: nat, done: seq<Token>, token: Token, n: nat, float: FloatParser)
    requires s != "" && !IsSpace(s[0]) && Scan(s, at, float) == Ok((token, n))
    ensures After(done, LexFrom(s, at, float)) == After(done + [token], LexFrom(s[n..], at + n, float))
  {
    LexStep(s, at, token, n, float);
    AfterTwice(done, token, LexFrom(s[n..], at + n, float));
  }

  /** The loop invariant's two halves: what is done and the lexing of what is left. */
  ghost function Remaining(text: string, i: nat, done: seq<Token>, float: FloatParser): Result<seq<Token>, LexError>
    requires i <= |text|
  {
    After(done, LexFrom(text[i..], i, float))
  }

  lemma LexFails(s: string, at: nat, e: LexError, float: FloatParser)
    requires s != "" && !IsSpace(s[0]) && Scan(s, at, float) == Err(e)
    ensures LexFrom(s, at, float) == Err(e)
  {
  }

  lemma SliceOfSlice(text: string, i: nat, n: nat)
    requires i + n <= |text|
    ensures text[i..][n..] == text[i + n..]
  {
  }

  lemma RoundScanned(text: string, i: nat, done: seq<Token>, token: Token, n: nat, float: FloatParser)
    requires i < |text| && !IsSpace(text[i]) && n <= |text| - i && Scan(text[i..], i, float) == Ok((token, n))
    ensures Remaining(text, i, done, float) == Remaining(text, i + n, done + [token], float)
  {
    LexToken(text[i..], i, done, token, n, float);
    SliceOfSlice(text, i, n);
  }

  lemma RoundFails(text: string, i: nat, done: seq<Token>, e: LexError, float: FloatParser)
    requires i < |text| && !IsSpace(text[i]) && Scan(text[i..], i, float) == Err(e)
    ensures Remaining(text, i, done, float) == Err(e)
  {
    LexFails(text[i..], i, e, float);
  }

  lemma RoundAtToken(text: string, i: nat, done: seq<Token>, head: Result<(Token, nat), LexError>, float: FloatParser)
    requires i < |text| && !IsSpace(text[i]) && head == Shifted(Scan(text[i..], i, float), i)
    ensures head.Err? ==> Remaining(text, i, done, float) == Err(head.error)
    ensures head.Ok? ==> i < head.value.1 <= |text|
    ensures head.Ok? ==>
              Remaining(text, i, done, float) == Remaining(text, head.value.1, done + [head.value.0], float)
  {
    match Scan(text[i..], i, float)
    case Err(e) => RoundFails(text, i, done, e, float);
    case Ok((token, n)) => RoundScanned(text, i, done, token, n, float);
  }

  lemma RoundAtSpace(text: string, i: nat, done: seq<Token>, float: FloatParser)
    requires i < |text| && IsSpace(text[i])
    ensures Remaining(text, i, done, float) == Remaining(text, i + 1, done, float)
  {
    assert text[i..][1..] == text[i + 1..];
  }

  method Tokenize(text: string, float: FloatParser) returns (r: Result<seq<Token>, LexError>)
    ensures r == Lex(text, float)
  {
    var tokens: seq<Token> := [];
    var i := 0;
    ghost var all := Lex(text, float);
    RoundStart(text, float);
    while i < |text|
      invariant i <= |text|
      invariant all == Remaining(text, i, tokens, float)
    {
      if IsSpace(text[i]) {
        RoundAtSpace(text, i, tokens, float);
        i := i + 1;
      } else {
        var head := ScanAt(text, i, float);
        RoundAtToken(text, i, tokens, head, float);
        if head.Err? { return Err(head.error); }
        tokens, i := tokens + [head.value.0], head.value.1;
      }
    }
    RoundEnd(text, tokens, float);
    r := Ok(tokens);
  }

  lemma RoundStart(text: string, float: FloatParser)
    ensures Remaining(text, 0, [], float) == Lex(text, float)
  {
    assert text[0..] == text;
    if Lex(text, float).Ok? { assert [] + Lex(text, float).value == Lex(text, float).value; }
  }

  lemma RoundEnd(text: string, done: seq<Token>, float: FloatParser)
    ensures Remaining(text, |text|, done, float) == Ok(done)
  {
    assert text[|text|..] == "" && done + [] == done;
  }
}
